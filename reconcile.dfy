/** The reconciler: what `check_exist`, `check_not_exist`, `create_records`,
    `modify_records` and `will_action` decide for one domain, given the domain's
    section and the provider's current record list. Each provider request the
    source posts is a `Call`; a plan is the list of calls an operation issues, in
    order, or the exception it raises before issuing any. */
module Reconcile {
  import opened Wrappers
  import opened Types
  import opened PyStr
  import opened Records
  import opened Matcher
  import opened Config

  const DataFormat := "json"

  /** A create or modify request: the domain, the login token, for a modify the
      provider id of the record rewritten, and the declared record sent. */
  datatype Call =
    | Create(domainId: string, token: string, record: Record)
    | Modify(domainId: string, token: string, recordId: ProviderId, record: Record)

  const Reserved: set<string> := {"login_token", "format", "domain_id", "record_id"}

  /** The form a call posts: the record's attributes plus `login_token`, `format`
      and `domain_id` (and `record_id` for a modify), which replace any declared
      attribute of the same name. The plans and the provider log keep the `Call`
      itself, which holds exactly the data this form is built from; `Form` states
      how the request body is made from it and is not used by the plans. */
  function Form(c: Call): (f: map<string, string>)
    ensures f.Keys == c.record.Keys + {"login_token", "format", "domain_id"} + (if c.Modify? then {"record_id"} else {})
    ensures f["login_token"] == c.token && f["format"] == DataFormat && f["domain_id"] == c.domainId
    ensures c.Modify? ==> f["record_id"] == c.recordId
    ensures forall k :: k in c.record && k !in Reserved ==> f[k] == c.record[k]
  {
    var f := c.record["login_token" := c.token]["format" := DataFormat]["domain_id" := c.domainId];
    if c.Modify? then f["record_id" := c.recordId] else f
  }

  predicate AllCore(recs: seq<Record>) {
    forall i :: 0 <= i < |recs| ==> HasCoreKeys(recs[i])
  }

  lemma ParsedAreCore(lits: seq<string>)
    requires ParseAll(lits).Ok?
    ensures AllCore(ParseAll(lits).value)
  {
    var recs := ParseAll(lits).value;
    forall i | 0 <= i < |recs| ensures HasCoreKeys(recs[i]) {
      assert ParseRecord(lits[i]) == Ok(recs[i]);
    }
  }

  // ---------------------------------------------------------------------------
  // check_exist and check_not_exist

  /** One turn of `check_exist`: a live new record is fatal in strict mode. */
  function ExistVerdict(name: string, r: Record, ps: seq<ProviderRecord>, enforce: bool): Outcome<Error> {
    match FindMatch(r, ps)
    case Err(e) => Fail(e)
    case Ok(m) => if m.Some? && enforce then Fail(AlreadyExists(name, r)) else Pass
  }

  /** One turn of `check_not_exist`: an old record that is not live is fatal in strict mode. */
  function NotExistVerdict(name: string, r: Record, ps: seq<ProviderRecord>, enforce: bool): Outcome<Error> {
    match FindMatch(r, ps)
    case Err(e) => Fail(e)
    case Ok(m) => if m.None? && enforce then Fail(NotExist(name, r)) else Pass
  }

  /** `check_exist`: passes exactly when no lookup raises and, in strict mode,
      no new record is live. */
  function CheckExistSpec(name: string, recs: seq<Record>, ps: seq<ProviderRecord>, enforce: bool): (res: Outcome<Error>)
    ensures res.Pass? <==> forall i :: 0 <= i < |recs| ==> FindMatch(recs[i], ps).Ok? && (enforce ==> Absent(recs[i], ps))
    decreases |recs|
  {
    if recs == [] then Pass
    else
      match ExistVerdict(name, recs[0], ps, enforce)
      case Fail(e) => Fail(e)
      case Pass => CheckExistSpec(name, recs[1..], ps, enforce)
  }

  /** `check_not_exist`: passes exactly when no lookup raises and, in strict
      mode, every old record is live. */
  function CheckNotExistSpec(name: string, recs: seq<Record>, ps: seq<ProviderRecord>, enforce: bool): (res: Outcome<Error>)
    ensures res.Pass? <==> forall i :: 0 <= i < |recs| ==> FindMatch(recs[i], ps).Ok? && (enforce ==> Found(recs[i], ps))
    decreases |recs|
  {
    if recs == [] then Pass
    else
      match NotExistVerdict(name, recs[0], ps, enforce)
      case Fail(e) => Fail(e)
      case Pass => CheckNotExistSpec(name, recs[1..], ps, enforce)
  }

  /** Record `i` is the first whose turn of `check_exist` fails, and the check
      raises its error. */
  predicate FirstExistViolation(name: string, recs: seq<Record>, ps: seq<ProviderRecord>, enforce: bool, i: int) {
    && 0 <= i < |recs|
    && ExistVerdict(name, recs[i], ps, enforce) == CheckExistSpec(name, recs, ps, enforce)
    && forall j :: 0 <= j < i ==> ExistVerdict(name, recs[j], ps, enforce).Pass?
  }

  /** In strict mode `check_exist` raises for the FIRST offending record: the
      one named in the error is live, and every record before it passed. */
  lemma {:induction false} CheckExistFirstViolation(name: string, recs: seq<Record>, ps: seq<ProviderRecord>, enforce: bool)
    requires CheckExistSpec(name, recs, ps, enforce).Fail?
    ensures exists i :: FirstExistViolation(name, recs, ps, enforce, i)
    decreases |recs|
  {
    if ExistVerdict(name, recs[0], ps, enforce).Pass? {
      CheckExistFirstViolation(name, recs[1..], ps, enforce);
      var i :| FirstExistViolation(name, recs[1..], ps, enforce, i);
      assert FirstExistViolation(name, recs, ps, enforce, i + 1) by {
        forall j | 0 <= j < i + 1 ensures ExistVerdict(name, recs[j], ps, enforce).Pass? {
          if j > 0 { assert recs[j] == recs[1..][j - 1]; }
        }
      }
    } else {
      assert FirstExistViolation(name, recs, ps, enforce, 0);
    }
  }

  /** Record `i` is the first whose turn of `check_not_exist` fails, and the
      check raises its error. */
  predicate FirstNotExistViolation(name: string, recs: seq<Record>, ps: seq<ProviderRecord>, enforce: bool, i: int) {
    && 0 <= i < |recs|
    && NotExistVerdict(name, recs[i], ps, enforce) == CheckNotExistSpec(name, recs, ps, enforce)
    && forall j :: 0 <= j < i ==> NotExistVerdict(name, recs[j], ps, enforce).Pass?
  }

  /** In strict mode `check_not_exist` raises for the FIRST offending record:
      the one named in the error is not live, and every record before it passed. */
  lemma {:induction false} CheckNotExistFirstViolation(name: string, recs: seq<Record>, ps: seq<ProviderRecord>, enforce: bool)
    requires CheckNotExistSpec(name, recs, ps, enforce).Fail?
    ensures exists i :: FirstNotExistViolation(name, recs, ps, enforce, i)
    decreases |recs|
  {
    if NotExistVerdict(name, recs[0], ps, enforce).Pass? {
      CheckNotExistFirstViolation(name, recs[1..], ps, enforce);
      var i :| FirstNotExistViolation(name, recs[1..], ps, enforce, i);
      assert FirstNotExistViolation(name, recs, ps, enforce, i + 1) by {
        forall j | 0 <= j < i + 1 ensures NotExistVerdict(name, recs[j], ps, enforce).Pass? {
          if j > 0 { assert recs[j] == recs[1..][j - 1]; }
        }
      }
    } else {
      assert FirstNotExistViolation(name, recs, ps, enforce, 0);
    }
  }

  /** Lenient mode only warns: neither check raises `AlreadyExists` or
      `NotExist`; the only exception left is the `KeyError` of a record without
      `value`, and records that all have a `value` always pass. */
  lemma LenientChecksOnlyWarn(name: string, recs: seq<Record>, ps: seq<ProviderRecord>)
    requires AllCore(recs)
    ensures CheckExistSpec(name, recs, ps, false).Pass? || CheckExistSpec(name, recs, ps, false) == Fail(MissingKey(Value))
    ensures CheckNotExistSpec(name, recs, ps, false).Pass? || CheckNotExistSpec(name, recs, ps, false) == Fail(MissingKey(Value))
    ensures (forall i :: 0 <= i < |recs| ==> Value in recs[i]) ==>
      CheckExistSpec(name, recs, ps, false).Pass? && CheckNotExistSpec(name, recs, ps, false).Pass?
  {
    LenientCheckErrors(name, recs, ps);
    forall i | 0 <= i < |recs| && Value in recs[i] ensures FindMatch(recs[i], ps).Ok? {
      MatchTotal(recs[i], ps);
    }
  }

  lemma {:induction false} LenientCheckErrors(name: string, recs: seq<Record>, ps: seq<ProviderRecord>)
    requires AllCore(recs)
    ensures CheckExistSpec(name, recs, ps, false).Pass? || CheckExistSpec(name, recs, ps, false) == Fail(MissingKey(Value))
    ensures CheckNotExistSpec(name, recs, ps, false).Pass? || CheckNotExistSpec(name, recs, ps, false) == Fail(MissingKey(Value))
    decreases |recs|
  {
    if recs != [] {
      MatchFails(recs[0], ps);
      LenientCheckErrors(name, recs[1..], ps);
    }
  }

  // ---------------------------------------------------------------------------
  // create_records

  /** `r` parses every piece of `pieces`, stripped, in order, or fails
      exactly when some stripped piece does not parse. */
  predicate ParsesPieces(pieces: seq<string>, r: Result<seq<Record>, Error>) {
    && (r.Ok? <==> forall i :: 0 <= i < |pieces| ==> ParseRecord(Strip(pieces[i])).Ok?)
    && (r.Ok? ==> |r.value| == |pieces| && forall i :: 0 <= i < |pieces| ==> ParseRecord(Strip(pieces[i])) == Ok(r.value[i]))
  }

  /** The parsed records of the `new` option: one per comma-separated piece,
      each parsed from the stripped piece, or the first piece's error. */
  function NewRecords(sec: Section): (r: Result<seq<Record>, Error>)
    requires HasNew(sec)
    ensures ParsesPieces(SplitOn(Lookup(sec, NewKey).value, ','), r)
  {
    ParseLiteralsMeaning(Lookup(sec, NewKey).value);
    ParseAll(NewLiterals(Lookup(sec, NewKey).value))
  }

  lemma ParseLiteralsMeaning(v: string)
    ensures ParsesPieces(SplitOn(v, ','), ParseAll(NewLiterals(v)))
  {
    var lits, pieces := NewLiterals(v), SplitOn(v, ',');
    assert |lits| == |pieces|;
    if forall i :: 0 <= i < |pieces| ==> ParseRecord(Strip(pieces[i])).Ok? {
      forall i | 0 <= i < |lits|
        ensures ParseRecord(lits[i]).Ok?
      {
        assert lits[i] == Strip(pieces[i]);
      }
    } else {
      var i :| 0 <= i < |pieces| && !ParseRecord(Strip(pieces[i])).Ok?;
      assert lits[i] == Strip(pieces[i]);
    }
  }

  /** One create request per record, in declared order. */
  function CreateCalls(domainId: string, token: string, recs: seq<Record>): seq<Call>
    decreases |recs|
  {
    if recs == [] then []
    else
      var n := |recs| - 1;
      CreateCalls(domainId, token, recs[..n]) + [Create(domainId, token, recs[n])]
  }

  lemma CreateCallsSnoc(domainId: string, token: string, recs: seq<Record>, i: nat)
    requires i < |recs|
    ensures CreateCalls(domainId, token, recs[..i + 1]) == CreateCalls(domainId, token, recs[..i]) + [Create(domainId, token, recs[i])]
  {
    assert recs[..i + 1][..i] == recs[..i];
  }

  lemma {:induction false} CreateCallsPointwise(domainId: string, token: string, recs: seq<Record>)
    ensures |CreateCalls(domainId, token, recs)| == |recs|
    ensures forall i :: 0 <= i < |recs| ==> CreateCalls(domainId, token, recs)[i] == Create(domainId, token, recs[i])
    decreases |recs|
  {
    if recs != [] {
      CreateCallsPointwise(domainId, token, recs[..|recs| - 1]);
    }
  }

  /** `create_records` against the provider's list `ps`: an absent or empty
      `new` is an error; otherwise one create per declared record, in order,
      none of them live in strict mode. */
  function CreatePlan(name: string, domainId: string, token: string, sec: Section, ps: seq<ProviderRecord>, enforce: bool)
    : (r: Result<seq<Call>, Error>)
    ensures !HasNew(sec) ==> r == Err(NoNewRecords)
    ensures r.Ok? ==>
      && HasNew(sec) && NewRecords(sec).Ok? && |r.value| == |NewRecords(sec).value|
      && forall i :: 0 <= i < |r.value| ==> r.value[i] == Create(domainId, token, NewRecords(sec).value[i])
    ensures r.Ok? && enforce ==> forall i :: 0 <= i < |r.value| ==> Absent(r.value[i].record, ps)
  {
    if !HasNew(sec) then Err(NoNewRecords)
    else
      match NewRecords(sec)
      case Err(e) => Err(e)
      case Ok(recs) =>
        match CheckExistSpec(name, recs, ps, enforce)
        case Fail(e) => Err(e)
        case Pass =>
          CreateCallsPointwise(domainId, token, recs);
          Ok(CreateCalls(domainId, token, recs))
  }

  /** The exception `create_records` raises: that of the first literal of `new`
      that does not parse, else that of `check_exist`. */
  lemma CreatePlanErrors(name: string, domainId: string, token: string, sec: Section, ps: seq<ProviderRecord>, enforce: bool)
    requires HasNew(sec)
    ensures var r := CreatePlan(name, domainId, token, sec, ps, enforce);
      && (NewRecords(sec).Err? ==> r == Err(NewRecords(sec).error))
      && (NewRecords(sec).Ok? ==>
        && (r.Ok? <==> CheckExistSpec(name, NewRecords(sec).value, ps, enforce).Pass?)
        && (r.Err? ==> r.error == CheckExistSpec(name, NewRecords(sec).value, ps, enforce).error))
  {
  }

  /** Once the `new` option is present, non-empty and parsed, `create_records`
      succeeds exactly when no lookup raises and, in strict mode, no new record
      is live; it then issues exactly one create per declared literal, in
      declared order. */
  lemma CreatePlanMeaning(name: string, domainId: string, token: string, sec: Section, ps: seq<ProviderRecord>, enforce: bool,
                          recs: seq<Record>)
    requires HasNew(sec) && NewRecords(sec) == Ok(recs)
    ensures CreatePlan(name, domainId, token, sec, ps, enforce).Ok? <==>
      forall i :: 0 <= i < |recs| ==> FindMatch(recs[i], ps).Ok? && (enforce ==> Absent(recs[i], ps))
    ensures CreatePlan(name, domainId, token, sec, ps, enforce).Ok? ==>
      var cs := CreatePlan(name, domainId, token, sec, ps, enforce).value;
      |cs| == |recs| == |NewLiterals(Lookup(sec, NewKey).value)| &&
      forall i :: 0 <= i < |cs| ==> cs[i] == Create(domainId, token, recs[i])
  {
    var chk := CheckExistSpec(name, recs, ps, enforce);
    assert CreatePlan(name, domainId, token, sec, ps, enforce) ==
      if chk.Pass? then Ok(CreateCalls(domainId, token, recs)) else Err(chk.error);
    assert |recs| == |NewLiterals(Lookup(sec, NewKey).value)|;
    CreateCallsPointwise(domainId, token, recs);
  }

  lemma {:induction false} CreateCallsTagged(domainId: string, token: string, recs: seq<Record>)
    ensures forall c :: c in CreateCalls(domainId, token, recs) ==> c.Create? && c.domainId == domainId && c.token == token
    decreases |recs|
  {
    if recs != [] {
      CreateCallsTagged(domainId, token, recs[..|recs| - 1]);
    }
  }

  /** Every request `create_records` posts is a create for its own domain,
      carrying the login token. */
  lemma CreatePlanTagged(name: string, domainId: string, token: string, sec: Section, ps: seq<ProviderRecord>, enforce: bool)
    ensures CreatePlan(name, domainId, token, sec, ps, enforce).Ok? ==>
      forall c :: c in CreatePlan(name, domainId, token, sec, ps, enforce).value ==>
        c.Create? && c.domainId == domainId && c.token == token
  {
    var plan := CreatePlan(name, domainId, token, sec, ps, enforce);
    if plan.Ok? {
      var recs := NewRecords(sec).value;
      assert plan.value == CreateCalls(domainId, token, recs);
      CreateCallsTagged(domainId, token, recs);
    }
  }

  /** Lenient mode attempts every declared create, even for records already
      live, when every record has a `value`. */
  lemma LenientCreateAttemptsAll(name: string, domainId: string, token: string, sec: Section, ps: seq<ProviderRecord>)
    requires HasNew(sec) && NewRecords(sec).Ok?
    requires forall i :: 0 <= i < |NewRecords(sec).value| ==> Value in NewRecords(sec).value[i]
    ensures CreatePlan(name, domainId, token, sec, ps, false) == Ok(CreateCalls(domainId, token, NewRecords(sec).value))
  {
    ParsedAreCore(NewLiterals(Lookup(sec, NewKey).value));
    LenientChecksOnlyWarn(name, NewRecords(sec).value, ps);
  }

  // ---------------------------------------------------------------------------
  // modify_records

  /** A reassignment to carry out: the provider id of the live old record, the
      old record and the new record that replaces it. */
  datatype Rewrite = Rewrite(recordId: ProviderId, oldRecord: Record, newRecord: Record)

  function Zip(olds: seq<Record>, news: seq<Record>): (r: seq<(Record, Record)>)
    requires |olds| == |news|
    ensures |r| == |olds| && forall i :: 0 <= i < |r| ==> r[i] == (olds[i], news[i])
  {
    seq(|olds|, i requires 0 <= i < |olds| => (olds[i], news[i]))
  }

  /** The pair is carried out exactly when the old record is live and the new one is not. */
  function RewriteOf(pair: (Record, Record), ps: seq<ProviderRecord>): Option<Rewrite> {
    match FindMatch(pair.0, ps)
    case Ok(Some(id)) => if Absent(pair.1, ps) then Some(Rewrite(id, pair.0, pair.1)) else None
    case _ => None
  }

  /** The pairs carried out, in declared order. */
  function Rewrites(pairs: seq<(Record, Record)>, ps: seq<ProviderRecord>): seq<Rewrite>
    decreases |pairs|
  {
    if pairs == [] then []
    else
      var n := |pairs| - 1;
      Rewrites(pairs[..n], ps) + AsSeq(RewriteOf(pairs[n], ps))
  }

  function AsSeq<T>(o: Option<T>): seq<T> {
    match o
    case Some(x) => [x]
    case None => []
  }

  lemma RewritesSnoc(pairs: seq<(Record, Record)>, ps: seq<ProviderRecord>, i: nat)
    requires i < |pairs|
    ensures Rewrites(pairs[..i + 1], ps) == Rewrites(pairs[..i], ps) + AsSeq(RewriteOf(pairs[i], ps))
  {
    assert pairs[..i + 1][..i] == pairs[..i];
  }

  /** One modify request per rewrite, targeting the old record's provider id. */
  function ModifyCalls(domainId: string, token: string, rws: seq<Rewrite>): seq<Call>
    decreases |rws|
  {
    if rws == [] then []
    else
      var n := |rws| - 1;
      ModifyCalls(domainId, token, rws[..n]) + [Modify(domainId, token, rws[n].recordId, rws[n].newRecord)]
  }

  lemma ModifyCallsSnoc(domainId: string, token: string, rws: seq<Rewrite>, w: Rewrite)
    ensures ModifyCalls(domainId, token, rws + [w]) == ModifyCalls(domainId, token, rws) + [Modify(domainId, token, w.recordId, w.newRecord)]
  {
    assert (rws + [w])[..|rws|] == rws;
  }

  lemma {:induction false} ModifyCallsPointwise(domainId: string, token: string, rws: seq<Rewrite>)
    ensures |ModifyCalls(domainId, token, rws)| == |rws|
    ensures forall i :: 0 <= i < |rws| ==>
      ModifyCalls(domainId, token, rws)[i] == Modify(domainId, token, rws[i].recordId, rws[i].newRecord)
    decreases |rws|
  {
    if rws != [] {
      ModifyCallsPointwise(domainId, token, rws[..|rws| - 1]);
    }
  }

  /** The validation `modify_records` and `will_action` share, and the rewrites
      it leaves: old and new records parsed, `check_exist` on the new ones,
      `check_not_exist` on the old ones. */
  function RewritePlan(name: string, sec: Section, ps: seq<ProviderRecord>, enforce: bool): (r: Result<seq<Rewrite>, Error>)
    ensures r.Ok? ==> DomainOldRecords(sec).Ok? && DomainNewRecords(sec).Ok?
    ensures r.Ok? ==> forall i :: 0 <= i < |DomainOldRecords(sec).value| ==>
      FindMatch(DomainOldRecords(sec).value[i], ps).Ok? && FindMatch(DomainNewRecords(sec).value[i], ps).Ok?
    ensures r.Ok? ==> forall k :: 0 <= k < |r.value| ==>
      && (r.value[k].oldRecord, r.value[k].newRecord) in Zip(DomainOldRecords(sec).value, DomainNewRecords(sec).value)
      && FindMatch(r.value[k].oldRecord, ps) == Ok(Some(r.value[k].recordId))
      && Absent(r.value[k].newRecord, ps)
    ensures DomainOldRecords(sec).Err? ==> r == Err(DomainOldRecords(sec).error)
    ensures DomainOldRecords(sec).Ok? && DomainNewRecords(sec).Err? ==> r == Err(DomainNewRecords(sec).error)
    ensures DomainOldRecords(sec).Ok? && DomainNewRecords(sec).Ok? ==>
      var exist := CheckExistSpec(name, DomainNewRecords(sec).value, ps, enforce);
      var notExist := CheckNotExistSpec(name, DomainOldRecords(sec).value, ps, enforce);
      && (r.Ok? <==> exist.Pass? && notExist.Pass?)
      && (exist.Fail? ==> r == Err(exist.error))
      && (exist.Pass? && notExist.Fail? ==> r == Err(notExist.error))
  {
    match DomainOldRecords(sec)
    case Err(e) => Err(e)
    case Ok(olds) =>
      match DomainNewRecords(sec)
      case Err(e) => Err(e)
      case Ok(news) =>
        match CheckExistSpec(name, news, ps, enforce)
        case Fail(e) => Err(e)
        case Pass =>
          match CheckNotExistSpec(name, olds, ps, enforce)
          case Fail(e) => Err(e)
          case Pass =>
            RewritesSoundAll(Zip(olds, news), ps);
            Ok(Rewrites(Zip(olds, news), ps))
  }

  /** `modify_records` against the provider's list `ps`: it fails exactly when
      the validation does, and otherwise posts one modify per rewrite, in order,
      at the rewrite's provider id and carrying its new record. */
  function ModifyPlan(name: string, domainId: string, token: string, sec: Section, ps: seq<ProviderRecord>, enforce: bool)
    : (r: Result<seq<Call>, Error>)
    ensures r.Ok? <==> RewritePlan(name, sec, ps, enforce).Ok?
    ensures r.Err? ==> r.error == RewritePlan(name, sec, ps, enforce).error
    ensures r.Ok? ==> var rws := RewritePlan(name, sec, ps, enforce).value;
      |r.value| == |rws| && forall k :: 0 <= k < |rws| ==> r.value[k] == Modify(domainId, token, rws[k].recordId, rws[k].newRecord)
  {
    match RewritePlan(name, sec, ps, enforce)
    case Err(e) => Err(e)
    case Ok(rws) =>
      ModifyCallsPointwise(domainId, token, rws);
      Ok(ModifyCalls(domainId, token, rws))
  }

  /** `modify_records` posts one modify per rewrite, in order: each targets, at
      its provider id, an old record that is live and sends the new record of
      the same declared pair, which is not live. */
  lemma ModifyPlanMeaning(name: string, domainId: string, token: string, sec: Section, ps: seq<ProviderRecord>, enforce: bool, k: nat)
    requires ModifyPlan(name, domainId, token, sec, ps, enforce).Ok?
    requires k < |ModifyPlan(name, domainId, token, sec, ps, enforce).value|
    ensures RewritePlan(name, sec, ps, enforce).Ok?
    ensures var rws := RewritePlan(name, sec, ps, enforce).value; var c := ModifyPlan(name, domainId, token, sec, ps, enforce).value[k];
      && k < |rws|
      && c == Modify(domainId, token, rws[k].recordId, rws[k].newRecord)
      && (rws[k].oldRecord, rws[k].newRecord) in Zip(DomainOldRecords(sec).value, DomainNewRecords(sec).value)
      && FindMatch(rws[k].oldRecord, ps) == Ok(Some(rws[k].recordId))
      && Absent(rws[k].newRecord, ps)
  {
  }

  lemma RewritesSoundAll(pairs: seq<(Record, Record)>, ps: seq<ProviderRecord>)
    ensures forall k :: 0 <= k < |Rewrites(pairs, ps)| ==>
      var w := Rewrites(pairs, ps)[k];
      (w.oldRecord, w.newRecord) in pairs && FindMatch(w.oldRecord, ps) == Ok(Some(w.recordId)) && Absent(w.newRecord, ps)
  {
    forall k | 0 <= k < |Rewrites(pairs, ps)| ensures
      var w := Rewrites(pairs, ps)[k];
      (w.oldRecord, w.newRecord) in pairs && FindMatch(w.oldRecord, ps) == Ok(Some(w.recordId)) && Absent(w.newRecord, ps)
    {
      RewritesSound(pairs, ps, k);
    }
  }

  lemma {:induction false} ModifyCallsTagged(domainId: string, token: string, rws: seq<Rewrite>)
    ensures forall c :: c in ModifyCalls(domainId, token, rws) ==> c.Modify? && c.domainId == domainId && c.token == token
    decreases |rws|
  {
    if rws != [] {
      ModifyCallsTagged(domainId, token, rws[..|rws| - 1]);
    }
  }

  /** Every request `modify_records` posts is a modify for its own domain,
      carrying the login token. */
  lemma ModifyPlanTagged(name: string, domainId: string, token: string, sec: Section, ps: seq<ProviderRecord>, enforce: bool)
    ensures ModifyPlan(name, domainId, token, sec, ps, enforce).Ok? ==>
      forall c :: c in ModifyPlan(name, domainId, token, sec, ps, enforce).value ==>
        c.Modify? && c.domainId == domainId && c.token == token
  {
    var plan := ModifyPlan(name, domainId, token, sec, ps, enforce);
    if plan.Ok? {
      var rws := RewritePlan(name, sec, ps, enforce).value;
      assert plan.value == ModifyCalls(domainId, token, rws);
      ModifyCallsTagged(domainId, token, rws);
    }
  }

  /** Every rewrite comes from a declared pair whose old record is live, with
      that record's id, and whose new record is not. */
  lemma {:induction false} RewritesSound(pairs: seq<(Record, Record)>, ps: seq<ProviderRecord>, k: nat)
    requires k < |Rewrites(pairs, ps)|
    ensures var w := Rewrites(pairs, ps)[k];
      (w.oldRecord, w.newRecord) in pairs && FindMatch(w.oldRecord, ps) == Ok(Some(w.recordId)) && Absent(w.newRecord, ps)
    decreases |pairs|
  {
    var n := |pairs| - 1;
    var front := Rewrites(pairs[..n], ps);
    if k < |front| {
      RewritesSound(pairs[..n], ps, k);
      assert Rewrites(pairs, ps)[k] == front[k];
    }
  }

  /** Every declared pair whose old record is live and whose new record is not
      is carried out. */
  lemma {:induction false} RewritesComplete(pairs: seq<(Record, Record)>, ps: seq<ProviderRecord>, i: nat, id: ProviderId)
    requires i < |pairs|
    requires FindMatch(pairs[i].0, ps) == Ok(Some(id)) && Absent(pairs[i].1, ps)
    ensures Rewrite(id, pairs[i].0, pairs[i].1) in Rewrites(pairs, ps)
    decreases |pairs|
  {
    var n := |pairs| - 1;
    var front := Rewrites(pairs[..n], ps);
    var tail := AsSeq(RewriteOf(pairs[n], ps));
    assert Rewrites(pairs, ps) == front + tail;
    if i < n {
      assert pairs[..n][i] == pairs[i];
      RewritesComplete(pairs[..n], ps, i, id);
      assert Rewrite(id, pairs[i].0, pairs[i].1) in front;
    } else {
      assert tail == [Rewrite(id, pairs[i].0, pairs[i].1)];
    }
  }

  /** Rewrites follow the declared order: those of a concatenation are those of
      the first part followed by those of the second. */
  lemma {:induction false} RewritesAppend(a: seq<(Record, Record)>, b: seq<(Record, Record)>, ps: seq<ProviderRecord>)
    ensures Rewrites(a + b, ps) == Rewrites(a, ps) + Rewrites(b, ps)
    decreases |b|
  {
    if b == [] {
      assert a + b == a;
    } else {
      var n := |b| - 1;
      assert (a + b)[..|a + b| - 1] == a + b[..n];
      assert (a + b)[|a + b| - 1] == b[n];
      RewritesAppend(a, b[..n], ps);
    }
  }

  /** When every pair qualifies, every pair is carried out, in order. */
  lemma {:induction false} RewritesAll(pairs: seq<(Record, Record)>, ps: seq<ProviderRecord>)
    requires forall i :: 0 <= i < |pairs| ==> Found(pairs[i].0, ps) && Absent(pairs[i].1, ps)
    ensures |Rewrites(pairs, ps)| == |pairs|
    ensures forall i :: 0 <= i < |pairs| ==>
      (Found(pairs[i].0, ps) && Rewrites(pairs, ps)[i] == Rewrite(FindMatch(pairs[i].0, ps).value.value, pairs[i].0, pairs[i].1))
    decreases |pairs|
  {
    if pairs != [] {
      var n := |pairs| - 1;
      var front := pairs[..n];
      assert forall i :: 0 <= i < |front| ==> front[i] == pairs[i];
      RewritesAll(front, ps);
      var last := Rewrite(FindMatch(pairs[n].0, ps).value.value, pairs[n].0, pairs[n].1);
      assert RewriteOf(pairs[n], ps) == Some(last);
      var rws := Rewrites(pairs, ps);
      assert rws == Rewrites(front, ps) + [last];
      forall i | 0 <= i < |pairs|
        ensures Found(pairs[i].0, ps) && rws[i] == Rewrite(FindMatch(pairs[i].0, ps).value.value, pairs[i].0, pairs[i].1)
      {
        if i < n {
          assert front[i] == pairs[i];
          assert rws[i] == Rewrites(front, ps)[i];
        } else {
          assert |Rewrites(front, ps)| == n;
          assert rws[n] == last;
        }
      }
    }
  }

  /** Strict `modify_records`: once every literal parses, it succeeds exactly
      when every new record is absent and every old record is live, and then
      rewrites every declared pair, in order, each at its old record's id. */
  lemma StrictModify(name: string, domainId: string, token: string, sec: Section, ps: seq<ProviderRecord>,
                     olds: seq<Record>, news: seq<Record>)
    requires DomainOldRecords(sec) == Ok(olds) && DomainNewRecords(sec) == Ok(news)
    ensures |olds| == |news| == |OldPairs(sec)|
    ensures ModifyPlan(name, domainId, token, sec, ps, true).Ok? <==>
      forall i :: 0 <= i < |olds| ==> Found(olds[i], ps) && Absent(news[i], ps)
    ensures ModifyPlan(name, domainId, token, sec, ps, true).Ok? ==>
      var cs := ModifyPlan(name, domainId, token, sec, ps, true).value;
      |cs| == |olds| &&
      forall i :: 0 <= i < |cs| ==> cs[i] == Modify(domainId, token, FindMatch(olds[i], ps).value.value, news[i])
  {
    StrictRewritePlan(name, sec, ps, olds, news);
    if ModifyPlan(name, domainId, token, sec, ps, true).Ok? {
      var pairs := Zip(olds, news);
      var cs := ModifyPlan(name, domainId, token, sec, ps, true).value;
      RewritesAll(pairs, ps);
      forall i | 0 <= i < |cs|
        ensures cs[i] == Modify(domainId, token, FindMatch(olds[i], ps).value.value, news[i])
      {
        assert pairs[i] == (olds[i], news[i]);
      }
    }
  }

  /** Strict `modify_records` gets past its checks exactly when every new
      record is absent and every old record is live, and then rewrites every
      declared pair. */
  lemma StrictRewritePlan(name: string, sec: Section, ps: seq<ProviderRecord>, olds: seq<Record>, news: seq<Record>)
    requires DomainOldRecords(sec) == Ok(olds) && DomainNewRecords(sec) == Ok(news)
    ensures |olds| == |news|
    ensures RewritePlan(name, sec, ps, true).Ok? <==>
      forall i :: 0 <= i < |olds| ==> Found(olds[i], ps) && Absent(news[i], ps)
    ensures RewritePlan(name, sec, ps, true).Ok? ==> RewritePlan(name, sec, ps, true).value == Rewrites(Zip(olds, news), ps)
  {
    var passes := CheckExistSpec(name, news, ps, true).Pass? && CheckNotExistSpec(name, olds, ps, true).Pass?;
    assert RewritePlan(name, sec, ps, true) == if passes then Ok(Rewrites(Zip(olds, news), ps)) else RewritePlan(name, sec, ps, true);
    assert RewritePlan(name, sec, ps, true).Ok? ==> passes;
  }

  /** Lenient `modify_records`, when every record has a `value`, never raises
      and carries out exactly the pairs whose old record is live and whose new
      record is not. */
  lemma LenientModify(name: string, domainId: string, token: string, sec: Section, ps: seq<ProviderRecord>,
                      olds: seq<Record>, news: seq<Record>)
    requires DomainOldRecords(sec) == Ok(olds) && DomainNewRecords(sec) == Ok(news)
    requires forall i :: 0 <= i < |olds| ==> Value in olds[i] && Value in news[i]
    ensures |olds| == |news|
    ensures ModifyPlan(name, domainId, token, sec, ps, false) ==
      Ok(ModifyCalls(domainId, token, Rewrites(Zip(olds, news), ps)))
  {
    ParsedAreCore(OldRecordKeys(sec));
    ParsedAreCore(NewRecordValues(sec));
    LenientChecksOnlyWarn(name, olds, ps);
    LenientChecksOnlyWarn(name, news, ps);
  }

  /** A single reassignment whose old record is live, at `id`, and whose new
      record is not: lenient `modify_records` issues exactly one modify, at `id`.
      If the new record is live too, it issues none. */
  lemma SingleReassignment(name: string, domainId: string, token: string, oldLit: string, newLit: string,
                           ps: seq<ProviderRecord>, id: ProviderId)
    requires oldLit != NewKey
    requires ParseRecord(oldLit).Ok? && ParseRecord(newLit).Ok?
    requires Value in ParseRecord(oldLit).value && Value in ParseRecord(newLit).value
    requires FindMatch(ParseRecord(oldLit).value, ps) == Ok(Some(id))
    ensures Absent(ParseRecord(newLit).value, ps) ==>
      ModifyPlan(name, domainId, token, [(oldLit, newLit)], ps, false) ==
        Ok([Modify(domainId, token, id, ParseRecord(newLit).value)])
    ensures Found(ParseRecord(newLit).value, ps) ==>
      ModifyPlan(name, domainId, token, [(oldLit, newLit)], ps, false) == Ok([])
  {
    var o, n := ParseRecord(oldLit).value, ParseRecord(newLit).value;
    SingleSection(oldLit, newLit);
    LenientModify(name, domainId, token, [(oldLit, newLit)], ps, [o], [n]);
    SingleRewrite(o, n, ps, id);
    if Absent(n, ps) {
      var w := Rewrite(id, o, n);
      assert [w][..0] == [];
      assert ModifyCalls(domainId, token, [w]) == [Modify(domainId, token, id, n)];
    }
  }

  /** A section of one reassignment parses to that reassignment's two records. */
  lemma SingleSection(oldLit: string, newLit: string)
    requires oldLit != NewKey
    requires ParseRecord(oldLit).Ok? && ParseRecord(newLit).Ok?
    ensures DomainOldRecords([(oldLit, newLit)]) == Ok([ParseRecord(oldLit).value])
    ensures DomainNewRecords([(oldLit, newLit)]) == Ok([ParseRecord(newLit).value])
  {
    var sec := [(oldLit, newLit)];
    assert OldPairs(sec) == sec;
    assert OldRecordKeys(sec) == [oldLit];
    assert NewRecordValues(sec) == [newLit];
    assert DomainOldRecords(sec).Ok? && DomainNewRecords(sec).Ok? by {
      assert ParseRecord(OldRecordKeys(sec)[0]).Ok? && ParseRecord(NewRecordValues(sec)[0]).Ok?;
    }
    var ro := DomainOldRecords(sec).value;
    assert |ro| == 1 && ro[0] == ParseRecord(oldLit).value;
    assert ro == [ParseRecord(oldLit).value];
    var rn := DomainNewRecords(sec).value;
    assert |rn| == 1 && rn[0] == ParseRecord(newLit).value;
    assert rn == [ParseRecord(newLit).value];
  }

  /** The rewrites of one pair whose old record is live at `id`. */
  lemma SingleRewrite(o: Record, n: Record, ps: seq<ProviderRecord>, id: ProviderId)
    requires FindMatch(o, ps) == Ok(Some(id))
    ensures Absent(n, ps) ==> Rewrites(Zip([o], [n]), ps) == [Rewrite(id, o, n)]
    ensures Found(n, ps) ==> Rewrites(Zip([o], [n]), ps) == []
  {
    var pairs := Zip([o], [n]);
    assert pairs == [(o, n)];
    assert pairs[..0] == [];
    assert Rewrites(pairs, ps) == [] + AsSeq(RewriteOf((o, n), ps));
  }

  // ---------------------------------------------------------------------------
  // will_action

  /** What the dry run reports: the records it would create and the pairs it
      would rewrite. */
  datatype Preview = Preview(creates: seq<Record>, rewrites: seq<Rewrite>)

  /** The records of `recs` that are not live, in order. */
  function AbsentOnes(recs: seq<Record>, ps: seq<ProviderRecord>): seq<Record>
    decreases |recs|
  {
    if recs == [] then []
    else
      var n := |recs| - 1;
      AbsentOnes(recs[..n], ps) + (if Absent(recs[n], ps) then [recs[n]] else [])
  }

  lemma {:induction false} AbsentOnesMeaning(recs: seq<Record>, ps: seq<ProviderRecord>)
    ensures forall r :: r in AbsentOnes(recs, ps) <==> r in recs && Absent(r, ps)
    ensures |AbsentOnes(recs, ps)| <= |recs|
    decreases |recs|
  {
    if recs != [] {
      var n := |recs| - 1;
      AbsentOnesMeaning(recs[..n], ps);
      assert recs == recs[..n] + [recs[n]];
    }
  }

  /** The absent records of two lists are the absent ones of the first, then
      those of the second: the order of the declaration is kept. */
  lemma {:induction false} AbsentOnesAppend(a: seq<Record>, b: seq<Record>, ps: seq<ProviderRecord>)
    ensures AbsentOnes(a + b, ps) == AbsentOnes(a, ps) + AbsentOnes(b, ps)
    decreases |b|
  {
    if b == [] {
      assert a + b == a;
    } else {
      var n := |b| - 1;
      AbsentOnesAppend(a, b[..n], ps);
      assert (a + b)[..|a + b| - 1] == a + b[..n];
      assert (a + b)[|a + b| - 1] == b[n];
      var last := if Absent(b[n], ps) then [b[n]] else [];
      assert AbsentOnes(a + b, ps) == AbsentOnes(a, ps) + AbsentOnes(b[..n], ps) + last;
      assert AbsentOnes(b, ps) == AbsentOnes(b[..n], ps) + last;
    }
  }

  /** The create half of `will_action`: nothing when `new` is absent or empty;
      otherwise, once `check_exist` passed, the declared new records that are
      not live, in order. */
  function WouldCreatePlan(name: string, sec: Section, ps: seq<ProviderRecord>, enforce: bool): (r: Result<seq<Record>, Error>)
    ensures !HasNew(sec) ==> r == Ok([])
    ensures HasNew(sec) && r.Ok? ==>
      && NewRecords(sec).Ok?
      && forall x :: x in r.value <==> x in NewRecords(sec).value && Absent(x, ps)
    ensures HasNew(sec) && NewRecords(sec).Err? ==> r == Err(NewRecords(sec).error)
    ensures HasNew(sec) && NewRecords(sec).Ok? ==>
      var check := CheckExistSpec(name, NewRecords(sec).value, ps, enforce);
      && (r.Ok? <==> check.Pass?)
      && (check.Fail? ==> r == Err(check.error))
      && (check.Pass? ==> r == Ok(AbsentOnes(NewRecords(sec).value, ps)))
  {
    if !HasNew(sec) then Ok([])
    else
      match NewRecords(sec)
      case Err(e) => Err(e)
      case Ok(recs) =>
        match CheckExistSpec(name, recs, ps, enforce)
        case Fail(e) => Err(e)
        case Pass =>
          AbsentOnesMeaning(recs, ps);
          Ok(AbsentOnes(recs, ps))
  }

  /** `will_action`: the create half, then the same validation as
      `modify_records`; it reports the records it would create and the pairs it
      would rewrite. */
  function WillActionPlan(name: string, sec: Section, ps: seq<ProviderRecord>, enforce: bool): (r: Result<Preview, Error>)
    ensures r.Ok? ==> WouldCreatePlan(name, sec, ps, enforce).Ok? && RewritePlan(name, sec, ps, enforce) == Ok(r.value.rewrites)
    ensures r.Ok? ==> forall x :: x in r.value.creates ==> Absent(x, ps)
    ensures WouldCreatePlan(name, sec, ps, enforce).Err? ==> r == Err(WouldCreatePlan(name, sec, ps, enforce).error)
    ensures r.Ok? <==> WouldCreatePlan(name, sec, ps, enforce).Ok? && RewritePlan(name, sec, ps, enforce).Ok?
    ensures r.Ok? ==> r.value.creates == WouldCreatePlan(name, sec, ps, enforce).value
    ensures WouldCreatePlan(name, sec, ps, enforce).Ok? && RewritePlan(name, sec, ps, enforce).Err? ==>
      r == Err(RewritePlan(name, sec, ps, enforce).error)
  {
    match WouldCreatePlan(name, sec, ps, enforce)
    case Err(e) => Err(e)
    case Ok(cr) =>
      match RewritePlan(name, sec, ps, enforce)
      case Err(e) => Err(e)
      case Ok(rws) => Ok(Preview(cr, rws))
  }

  /** What `will_action` prints: the whole report when it returns; when only its
      reassignment half raises, the creates it had already printed; nothing when
      its create half raises. */
  function DryRunPrinted(name: string, sec: Section, ps: seq<ProviderRecord>, enforce: bool): (r: seq<Preview>)
    ensures WillActionPlan(name, sec, ps, enforce).Ok? ==> r == [WillActionPlan(name, sec, ps, enforce).value]
    ensures WouldCreatePlan(name, sec, ps, enforce).Err? ==> r == []
    ensures WouldCreatePlan(name, sec, ps, enforce).Ok? ==> |r| == 1 && r[0].creates == WouldCreatePlan(name, sec, ps, enforce).value
    ensures WillActionPlan(name, sec, ps, enforce).Err? ==> forall p :: p in r ==> p.rewrites == []
  {
    match WillActionPlan(name, sec, ps, enforce)
    case Ok(p) => [p]
    case Err(_) =>
      match WouldCreatePlan(name, sec, ps, enforce)
      case Ok(cr) => [Preview(cr, [])]
      case Err(_) => []
  }

  /** The dry run reports a create for exactly the declared new records that are
      not live, and the rewrites `modify_records` would carry out with the same
      provider list. */
  lemma PreviewMeaning(name: string, domainId: string, token: string, sec: Section, ps: seq<ProviderRecord>, enforce: bool)
    requires WillActionPlan(name, sec, ps, enforce).Ok?
    ensures var p := WillActionPlan(name, sec, ps, enforce).value;
      && (!HasNew(sec) ==> p.creates == [])
      && (HasNew(sec) ==> NewRecords(sec).Ok? && forall r :: r in p.creates <==> r in NewRecords(sec).value && Absent(r, ps))
      && ModifyPlan(name, domainId, token, sec, ps, enforce) == Ok(ModifyCalls(domainId, token, p.rewrites))
  {
    if HasNew(sec) {
      AbsentOnesMeaning(NewRecords(sec).value, ps);
    }
  }

  /** The lenient dry run, as `-c` runs it, never raises once every literal
      parses and every record has a `value`: it reports the absent new records,
      in declared order, and every qualifying reassignment. */
  lemma LenientDryRun(name: string, sec: Section, ps: seq<ProviderRecord>, olds: seq<Record>, news: seq<Record>)
    requires HasNew(sec) ==>
      NewRecords(sec).Ok? && forall i :: 0 <= i < |NewRecords(sec).value| ==> Value in NewRecords(sec).value[i]
    requires DomainOldRecords(sec) == Ok(olds) && DomainNewRecords(sec) == Ok(news)
    requires forall i :: 0 <= i < |olds| ==> Value in olds[i] && Value in news[i]
    ensures |olds| == |news|
    ensures WillActionPlan(name, sec, ps, false) ==
      Ok(Preview(if HasNew(sec) then AbsentOnes(NewRecords(sec).value, ps) else [], Rewrites(Zip(olds, news), ps)))
  {
    if HasNew(sec) {
      ParsedAreCore(NewLiterals(Lookup(sec, NewKey).value));
      LenientChecksOnlyWarn(name, NewRecords(sec).value, ps);
    }
    ParsedAreCore(OldRecordKeys(sec));
    ParsedAreCore(NewRecordValues(sec));
    LenientChecksOnlyWarn(name, olds, ps);
    LenientChecksOnlyWarn(name, news, ps);
  }
}
