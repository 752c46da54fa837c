/** The record matcher (`Domain.is_exist`): a linear scan of the provider's
    records for the first one whose name, type, line and value equal the
    declared record's `sub_domain`, `record_type`, `record_line` and `value`.

    The source compares the four attributes with Python's short-circuit `and`,
    reading each declared attribute only when the earlier ones were equal; a
    missing attribute raises `KeyError` at that moment. A record parsed from a
    three-token literal has no `value`, so matching it against a provider record
    with the same name, type and line raises. */
module Matcher {
  import opened Wrappers
  import opened Types
  import opened Records

  /** One comparison of the scan, evaluated as the source's `and` chain: true
      exactly when the four fields agree, and a `KeyError` only for an
      attribute the record lacks. */
  function Compare(r: Record, p: ProviderRecord): (res: Result<bool, Error>)
    ensures res == Ok(true) <==> Matches(r, p)
    ensures res.Err? ==> res.error.MissingKey? && res.error.key !in r
  {
    if SubDomain !in r then Err(MissingKey(SubDomain))
    else if r[SubDomain] != p.name then Ok(false)
    else if RecordType !in r then Err(MissingKey(RecordType))
    else if r[RecordType] != p.rtype then Ok(false)
    else if RecordLine !in r then Err(MissingKey(RecordLine))
    else if r[RecordLine] != p.line then Ok(false)
    else if Value !in r then Err(MissingKey(Value))
    else Ok(r[Value] == p.value)
  }

  /** The declared record and the provider record agree on all four compared fields. */
  predicate Matches(r: Record, p: ProviderRecord) {
    && SubDomain in r && RecordType in r && RecordLine in r && Value in r
    && r[SubDomain] == p.name && r[RecordType] == p.rtype
    && r[RecordLine] == p.line && r[Value] == p.value
  }

  /** They agree on sub-domain, type and line (the comparisons made before `value` is read). */
  predicate PrefixMatches(r: Record, p: ProviderRecord)
    requires HasCoreKeys(r)
  {
    r[SubDomain] == p.name && r[RecordType] == p.rtype && r[RecordLine] == p.line
  }

  /** The scan from position `k` on: the index of the first match, none, or the
      error a comparison raised. */
  function FirstMatchFrom(r: Record, ps: seq<ProviderRecord>, k: nat): (res: Result<Option<nat>, Error>)
    requires k <= |ps|
    ensures res.Ok? && res.value.Some? ==> k <= res.value.value < |ps|
    ensures res.Ok? && res.value.Some? ==>
      Matches(r, ps[res.value.value]) && forall j :: k <= j < res.value.value ==> !Matches(r, ps[j])
    ensures res == Ok(None) ==> forall j :: k <= j < |ps| ==> !Matches(r, ps[j])
    ensures res.Err? ==> res.error.MissingKey? && res.error.key !in r
    decreases |ps| - k
  {
    if k == |ps| then Ok(None)
    else
      match Compare(r, ps[k])
      case Err(e) => Err(e)
      case Ok(true) => Ok(Some(k))
      case Ok(false) => FirstMatchFrom(r, ps, k + 1)
  }

  /** The position of the first provider record that matches. */
  function MatchIndex(r: Record, ps: seq<ProviderRecord>): (res: Result<Option<nat>, Error>)
    ensures res.Ok? && res.value.Some? ==> res.value.value < |ps|
  {
    FirstMatchFrom(r, ps, 0)
  }

  /** `is_exist`: the id of the first matching provider record, or none, or
      the `KeyError` of an attribute the record lacks. */
  function FindMatch(r: Record, ps: seq<ProviderRecord>): (res: Result<Option<ProviderId>, Error>)
    ensures res.Ok? && res.value.Some? ==> exists i ::
      && 0 <= i < |ps| && ps[i].id == res.value.value && Matches(r, ps[i])
      && forall j :: 0 <= j < i ==> !Matches(r, ps[j])
    ensures res == Ok(None) ==> forall j :: 0 <= j < |ps| ==> !Matches(r, ps[j])
    ensures res.Err? ==> res.error.MissingKey? && res.error.key !in r
  {
    match MatchIndex(r, ps)
    case Err(e) => Err(e)
    case Ok(None) => Ok(None)
    case Ok(Some(i)) => Ok(Some(ps[i].id))
  }

  /** The record is live: the scan finds a match (the source's truthy id). */
  predicate Found(r: Record, ps: seq<ProviderRecord>) {
    FindMatch(r, ps).Ok? && FindMatch(r, ps).value.Some?
  }

  /** The record is not live: the scan completes without a match. */
  predicate Absent(r: Record, ps: seq<ProviderRecord>) {
    FindMatch(r, ps) == Ok(None)
  }

  // ---------------------------------------------------------------------------
  // What the scan computes

  lemma CompareMeaning(r: Record, p: ProviderRecord)
    requires HasCoreKeys(r)
    ensures Compare(r, p) == Ok(true) <==> Matches(r, p)
    ensures Compare(r, p).Err? <==> Value !in r && PrefixMatches(r, p)
    ensures Compare(r, p).Err? ==> Compare(r, p).error == MissingKey(Value)
  {
  }

  lemma FirstMatchFromMeaning(r: Record, ps: seq<ProviderRecord>, k: nat)
    requires HasCoreKeys(r) && k <= |ps|
    ensures FirstMatchFrom(r, ps, k).Err? <==> Value !in r && exists j :: k <= j < |ps| && PrefixMatches(r, ps[j])
    ensures FirstMatchFrom(r, ps, k).Err? ==> FirstMatchFrom(r, ps, k).error == MissingKey(Value)
    ensures FirstMatchFrom(r, ps, k) == Ok(None) <==>
      (forall j :: k <= j < |ps| ==> !Matches(r, ps[j])) && (Value in r || forall j :: k <= j < |ps| ==> !PrefixMatches(r, ps[j]))
    ensures forall i :: FirstMatchFrom(r, ps, k) == Ok(Some(i)) <==>
      (k <= i < |ps| && Matches(r, ps[i]) && forall j :: k <= j < i ==> !Matches(r, ps[j]))
  {
    FirstMatchFromRaises(r, ps, k);
    FirstMatchFromNone(r, ps, k);
    forall i
      ensures FirstMatchFrom(r, ps, k) == Ok(Some(i)) <==>
        (k <= i < |ps| && Matches(r, ps[i]) && forall j :: k <= j < i ==> !Matches(r, ps[j]))
    {
      FirstMatchFromSome(r, ps, k, i);
    }
  }

  /** The scan from `k` raises exactly when the record has no `value` and some
      later provider record agrees on its prefix. */
  lemma {:induction false} FirstMatchFromRaises(r: Record, ps: seq<ProviderRecord>, k: nat)
    requires HasCoreKeys(r) && k <= |ps|
    ensures FirstMatchFrom(r, ps, k).Err? <==> Value !in r && exists j :: k <= j < |ps| && PrefixMatches(r, ps[j])
    ensures FirstMatchFrom(r, ps, k).Err? ==> FirstMatchFrom(r, ps, k).error == MissingKey(Value)
    decreases |ps| - k
  {
    if k < |ps| {
      CompareMeaning(r, ps[k]);
      FirstMatchFromRaises(r, ps, k + 1);
    }
  }

  /** The scan from `k` finds nothing exactly when no later provider record
      matches and it did not raise. */
  lemma {:induction false} FirstMatchFromNone(r: Record, ps: seq<ProviderRecord>, k: nat)
    requires HasCoreKeys(r) && k <= |ps|
    ensures FirstMatchFrom(r, ps, k) == Ok(None) <==>
      (forall j :: k <= j < |ps| ==> !Matches(r, ps[j])) && (Value in r || forall j :: k <= j < |ps| ==> !PrefixMatches(r, ps[j]))
    decreases |ps| - k
  {
    if k < |ps| {
      CompareMeaning(r, ps[k]);
      FirstMatchFromNone(r, ps, k + 1);
    }
  }

  /** The scan from `k` stops at `i` exactly when `i` is the first later
      provider record that matches. */
  lemma {:induction false} FirstMatchFromSome(r: Record, ps: seq<ProviderRecord>, k: nat, i: int)
    requires HasCoreKeys(r) && k <= |ps|
    ensures FirstMatchFrom(r, ps, k) == Ok(Some(i)) <==>
      (k <= i < |ps| && Matches(r, ps[i]) && forall j :: k <= j < i ==> !Matches(r, ps[j]))
    decreases |ps| - k
  {
    if k < |ps| {
      CompareMeaning(r, ps[k]);
      FirstMatchFromSome(r, ps, k + 1, i);
    }
  }

  /** The scan raises exactly when the record has no `value` and some provider
      record agrees on sub-domain, type and line; it then raises `KeyError` on
      `value`. */
  lemma MatchFails(r: Record, ps: seq<ProviderRecord>)
    requires HasCoreKeys(r)
    ensures FindMatch(r, ps).Err? <==> Value !in r && exists j :: 0 <= j < |ps| && PrefixMatches(r, ps[j])
    ensures FindMatch(r, ps).Err? ==> FindMatch(r, ps).error == MissingKey(Value)
  {
    FirstMatchFromMeaning(r, ps, 0);
  }

  /** A record with a `value` never makes the scan raise. */
  lemma MatchTotal(r: Record, ps: seq<ProviderRecord>)
    requires HasCoreKeys(r) && Value in r
    ensures FindMatch(r, ps).Ok?
  {
    MatchFails(r, ps);
  }

  /** The scan returns the id of the FIRST matching provider record: the one at
      index `i` matches and none before it does. */
  lemma MatchIsFirst(r: Record, ps: seq<ProviderRecord>, i: nat)
    requires HasCoreKeys(r)
    ensures MatchIndex(r, ps) == Ok(Some(i)) <==>
      (i < |ps| && Matches(r, ps[i]) && forall j :: 0 <= j < i ==> !Matches(r, ps[j]))
  {
    FirstMatchFromMeaning(r, ps, 0);
  }

  /** The scan finds nothing exactly when no provider record matches and it did
      not raise. */
  lemma MatchNone(r: Record, ps: seq<ProviderRecord>)
    requires HasCoreKeys(r) && Value in r
    ensures Absent(r, ps) <==> forall j :: 0 <= j < |ps| ==> !Matches(r, ps[j])
  {
    FirstMatchFromMeaning(r, ps, 0);
  }

  /** Reflexivity: a provider record with the declared sub-domain, type, line and
      value is always found, whatever its id and enabled flag. */
  lemma MatchReflexive(r: Record, ps: seq<ProviderRecord>, j: nat)
    requires j < |ps| && Matches(r, ps[j])
    ensures Found(r, ps)
  {
    FirstMatchFromMeaning(r, ps, 0);
  }

  /** The four compared fields of a provider record. */
  function Key(p: ProviderRecord): (string, string, string, string) {
    (p.name, p.rtype, p.line, p.value)
  }

  /** The declared attributes the scan may read. */
  function DeclaredKey(r: Record): (Option<string>, Option<string>, Option<string>, Option<string>) {
    (if SubDomain in r then Some(r[SubDomain]) else None,
     if RecordType in r then Some(r[RecordType]) else None,
     if RecordLine in r then Some(r[RecordLine]) else None,
     if Value in r then Some(r[Value]) else None)
  }

  /** Only the four compared fields decide the outcome: records that agree on them,
      scanned over provider lists that agree on them position by position, give
      the same match position, however their extra attributes, ids and enabled
      flags differ. */
  lemma {:induction false} MatchIgnoresOtherFields(r: Record, r': Record, ps: seq<ProviderRecord>, qs: seq<ProviderRecord>, k: nat)
    requires DeclaredKey(r) == DeclaredKey(r')
    requires |ps| == |qs| && k <= |ps|
    requires forall j :: 0 <= j < |ps| ==> Key(ps[j]) == Key(qs[j])
    ensures FirstMatchFrom(r, ps, k) == FirstMatchFrom(r', qs, k)
    decreases |ps| - k
  {
    if k < |ps| {
      assert Compare(r, ps[k]) == Compare(r', qs[k]);
      MatchIgnoresOtherFields(r, r', ps, qs, k + 1);
    }
  }
}
