/** The stateful side of the client: the provider account, which records every
    create and modify request posted to it, and the `Domain` object, which holds
    one configured domain and carries out `is_exist`, `check_exist`,
    `check_not_exist`, `create_records`, `modify_records` and `will_action`
    against it. Each operation is proved to do exactly what the matching plan of
    module `Reconcile` describes. */
module Session {
  import opened Wrappers
  import opened Types
  import opened PyStr
  import opened Records
  import opened Matcher
  import opened Config
  import opened Reconcile

  /** The provider account. `listing(id, h)` is the record list `Record.List`
      returns for domain `id` once the requests `h` have been posted; `calls` is
      every request posted so far, in order. */
  class Provider {
    const listing: (string, seq<Call>) -> seq<ProviderRecord>
    var calls: seq<Call>

    constructor (listing: (string, seq<Call>) -> seq<ProviderRecord>)
      ensures this.listing == listing && calls == []
    {
      this.listing := listing;
      calls := [];
    }

    /** `get_dnspod_records`: the domain's current records. */
    method ListRecords(domainId: string) returns (ps: seq<ProviderRecord>)
      ensures ps == listing(domainId, calls)
    {
      ps := listing(domainId, calls);
    }

    /** One `Record.Create` or `Record.Modify` request. */
    method Post(c: Call)
      modifies this
      ensures calls == old(calls) + [c]
    {
      calls := calls + [c];
    }
  }

  /** One domain known to the provider, bound to its configuration section. */
  class Domain {
    const id: string
    const name: string
    const token: string
    var section: Section

    constructor (id: string, name: string, token: string, section: Section)
      ensures this.id == id && this.name == name && this.token == token && this.section == section
    {
      this.id := id;
      this.name := name;
      this.token := token;
      this.section := section;
    }

    /** `is_exist`: scan the provider records for the first match and return its id. */
    method IsExist(r: Record, ps: seq<ProviderRecord>) returns (res: Result<Option<ProviderId>, Error>)
      ensures res == FindMatch(r, ps)
    {
      var exist: Option<ProviderId> := None;
      var k := 0;
      while k < |ps|
        invariant 0 <= k <= |ps|
        invariant exist == None
        invariant MatchIndex(r, ps) == FirstMatchFrom(r, ps, k)
      {
        var c := Compare(r, ps[k]);
        if c.Err? {
          return Err(c.error);
        }
        if c.value {
          exist := Some(ps[k].id);
          break;
        }
        k := k + 1;
      }
      return Ok(exist);
    }

    /** `check_exist`: in strict mode, stop at the first new record already live. */
    method CheckExist(recs: seq<Record>, ps: seq<ProviderRecord>, enforce: bool) returns (res: Outcome<Error>)
      ensures res == CheckExistSpec(name, recs, ps, enforce)
    {
      for i := 0 to |recs|
        invariant CheckExistSpec(name, recs, ps, enforce) == CheckExistSpec(name, recs[i..], ps, enforce)
      {
        assert recs[i..][1..] == recs[i + 1..];
        var m := IsExist(recs[i], ps);
        if m.Err? {
          return Fail(m.error);
        }
        if m.value.Some? && enforce {
          return Fail(AlreadyExists(name, recs[i]));
        }
      }
      return Pass;
    }

    /** `check_not_exist`: in strict mode, stop at the first old record not live. */
    method CheckNotExist(recs: seq<Record>, ps: seq<ProviderRecord>, enforce: bool) returns (res: Outcome<Error>)
      ensures res == CheckNotExistSpec(name, recs, ps, enforce)
    {
      for i := 0 to |recs|
        invariant CheckNotExistSpec(name, recs, ps, enforce) == CheckNotExistSpec(name, recs[i..], ps, enforce)
      {
        assert recs[i..][1..] == recs[i + 1..];
        var m := IsExist(recs[i], ps);
        if m.Err? {
          return Fail(m.error);
        }
        if m.value.None? && enforce {
          return Fail(NotExist(name, recs[i]));
        }
      }
      return Pass;
    }

    /** `create_records`: on success the provider has received exactly the
        planned creates, in order; on failure, nothing. */
    method CreateRecords(api: Provider, enforce: bool) returns (res: Outcome<Error>)
      modifies api
      ensures match CreatePlan(name, id, token, section, api.listing(id, old(api.calls)), enforce)
        case Err(e) => res == Fail(e) && api.calls == old(api.calls)
        case Ok(cs) => res == Pass && api.calls == old(api.calls) + cs
    {
      ghost var plan := CreatePlan(name, id, token, section, api.listing(id, api.calls), enforce);
      var v := Lookup(section, NewKey);
      if v.None? || v.value == [] {
        return Fail(NoNewRecords);
      }
      var parsed := NewRecords(section);
      if parsed.Err? {
        assert plan == Err(parsed.error);
        return Fail(parsed.error);
      }
      var recs := parsed.value;
      var ps := api.ListRecords(id);
      var chk := CheckExist(recs, ps, enforce);
      if chk.Fail? {
        assert plan == Err(chk.error);
        return Fail(chk.error);
      }
      assert plan == Ok(CreateCalls(id, token, recs));
      PostCreates(api, recs);
      return Pass;
    }

    /** The posting loop of `create_records`: one create per record, in order. */
    method PostCreates(api: Provider, recs: seq<Record>)
      modifies api
      ensures api.calls == old(api.calls) + CreateCalls(id, token, recs)
    {
      for i := 0 to |recs|
        invariant api.calls == old(api.calls) + CreateCalls(id, token, recs[..i])
      {
        CreateCallsSnoc(id, token, recs, i);
        api.Post(Create(id, token, recs[i]));
      }
      assert recs[..|recs|] == recs;
    }

    /** The checks `modify_records` and `will_action` make before they look at
        any reassignment: both record lists parsed, `check_exist` on the new
        records, `check_not_exist` on the old ones. */
    method CheckReassignments(ps: seq<ProviderRecord>, enforce: bool) returns (res: Result<(seq<Record>, seq<Record>), Error>)
      ensures res.Err? ==> RewritePlan(name, section, ps, enforce) == Err(res.error)
      ensures res.Ok? ==>
        && DomainOldRecords(section) == Ok(res.value.0) && DomainNewRecords(section) == Ok(res.value.1)
        && |res.value.0| == |res.value.1| == |OldPairs(section)|
        && (forall i :: 0 <= i < |res.value.0| ==> FindMatch(res.value.0[i], ps).Ok? && FindMatch(res.value.1[i], ps).Ok?)
        && RewritePlan(name, section, ps, enforce) == Ok(Rewrites(Zip(res.value.0, res.value.1), ps))
    {
      var parsedOld := DomainOldRecords(section);
      if parsedOld.Err? {
        return Err(parsedOld.error);
      }
      var parsedNew := DomainNewRecords(section);
      if parsedNew.Err? {
        return Err(parsedNew.error);
      }
      var olds, news := parsedOld.value, parsedNew.value;
      var chk := CheckExist(news, ps, enforce);
      if chk.Fail? {
        return Err(chk.error);
      }
      chk := CheckNotExist(olds, ps, enforce);
      if chk.Fail? {
        return Err(chk.error);
      }
      return Ok((olds, news));
    }

    /** One turn of the reassignment loop: parse reassignment `i` again and
        look up its old record, then, if that is live, its new record. Both
        lookups were already made by the checks before the loop, so neither
        raises here. */
    method Reassignment(i: nat, olds: seq<Record>, news: seq<Record>, ps: seq<ProviderRecord>) returns (w: Option<Rewrite>)
      requires DomainOldRecords(section) == Ok(olds) && DomainNewRecords(section) == Ok(news)
      requires i < |OldPairs(section)|
      requires FindMatch(olds[i], ps).Ok? && FindMatch(news[i], ps).Ok?
      ensures i < |olds| && i < |news| && w == RewriteOf((olds[i], news[i]), ps)
    {
      var pair := OldPairs(section)[i];
      var o := StrToRecord(pair.0);
      var n := StrToRecord(pair.1);
      assert o == Ok(olds[i]) && n == Ok(news[i]) by {
        assert OldRecordKeys(section)[i] == pair.0;
        assert NewRecordValues(section)[i] == pair.1;
      }
      var rid := IsExist(o.value, ps);
      assert rid.Ok?;
      match rid.value {
        case Some(recordId) =>
          var m := IsExist(n.value, ps);
          assert m.Ok?;
          if m.value.None? {
            return Some(Rewrite(recordId, o.value, n.value));
          }
          return None;
        case None =>
          return None;
      }
    }

    /** `modify_records`: on success the provider has received exactly the
        planned modifies, in declared order; on failure, nothing. */
    method ModifyRecords(api: Provider, enforce: bool) returns (res: Outcome<Error>)
      modifies api
      ensures match ModifyPlan(name, id, token, section, api.listing(id, old(api.calls)), enforce)
        case Err(e) => res == Fail(e) && api.calls == old(api.calls)
        case Ok(cs) => res == Pass && api.calls == old(api.calls) + cs
    {
      var ps := api.ListRecords(id);
      var checked := CheckReassignments(ps, enforce);
      if checked.Err? {
        return Fail(checked.error);
      }
      var (olds, news) := checked.value;
      var rewrites := PlanRewrites(olds, news, ps);
      PostRewrites(api, rewrites);
      return Pass;
    }

    /** The posting half of the reassignment loop: one modify per rewrite, in order. */
    method PostRewrites(api: Provider, rws: seq<Rewrite>)
      modifies api
      ensures api.calls == old(api.calls) + ModifyCalls(id, token, rws)
    {
      ghost var done: seq<Rewrite> := [];
      for i := 0 to |rws|
        invariant done == rws[..i]
        invariant api.calls == old(api.calls) + ModifyCalls(id, token, done)
      {
        var w := rws[i];
        ModifyCallsSnoc(id, token, done, w);
        api.Post(Modify(id, token, w.recordId, w.newRecord));
        done := done + [w];
      }
      assert rws[..|rws|] == rws;
    }

    /** `will_action`: the dry run. It posts nothing, reports what
        `create_records` and `modify_records` would do, and prints the creates
        before it validates the reassignments. */
    method WillAction(api: Provider, enforce: bool) returns (res: Result<Preview, Error>, printed: seq<Preview>)
      ensures res == WillActionPlan(name, section, api.listing(id, api.calls), enforce)
      ensures printed == DryRunPrinted(name, section, api.listing(id, api.calls), enforce)
    {
      var ps := api.ListRecords(id);
      var creates: seq<Record> := [];
      var v := Lookup(section, NewKey);
      if v.Some? && v.value != [] {
        var parsed := NewRecords(section);
        if parsed.Err? {
          return Err(parsed.error), [];
        }
        var recs := parsed.value;
        var chk := CheckExist(recs, ps, enforce);
        if chk.Fail? {
          return Err(chk.error), [];
        }
        creates := WouldCreate(recs, ps);
      }
      var checked := CheckReassignments(ps, enforce);
      if checked.Err? {
        return Err(checked.error), [Preview(creates, [])];
      }
      var (olds, news) := checked.value;
      var rewrites := PlanRewrites(olds, news, ps);
      res := Ok(Preview(creates, rewrites));
      printed := [res.value];
    }

    /** The create loop of `will_action`: the new records not yet live, in order. */
    method WouldCreate(recs: seq<Record>, ps: seq<ProviderRecord>) returns (creates: seq<Record>)
      ensures creates == AbsentOnes(recs, ps)
    {
      creates := [];
      for i := 0 to |recs|
        invariant creates == AbsentOnes(recs[..i], ps)
      {
        assert recs[..i + 1][..i] == recs[..i];
        var m := IsExist(recs[i], ps);
        if m == Ok(None) {
          creates := creates + [recs[i]];
        }
      }
      assert recs[..|recs|] == recs;
    }

    /** The deciding half of the reassignment loop of `modify_records` and
        `will_action`: the pairs whose old record is live and whose new record
        is not, in declared order. */
    method PlanRewrites(olds: seq<Record>, news: seq<Record>, ps: seq<ProviderRecord>) returns (rewrites: seq<Rewrite>)
      requires DomainOldRecords(section) == Ok(olds) && DomainNewRecords(section) == Ok(news)
      requires forall i :: 0 <= i < |olds| ==> FindMatch(olds[i], ps).Ok? && FindMatch(news[i], ps).Ok?
      ensures |olds| == |news|
      ensures rewrites == Rewrites(Zip(olds, news), ps)
    {
      ghost var zipped := Zip(olds, news);
      rewrites := [];
      for i := 0 to |OldPairs(section)|
        invariant rewrites == Rewrites(zipped[..i], ps)
      {
        var w := Reassignment(i, olds, news, ps);
        RewritesSnoc(zipped, ps, i);
        rewrites := rewrites + AsSeq(w);
      }
      assert zipped[..|zipped|] == zipped;
    }

    /** `section.pop('new')`. */
    method DropNew()
      requires Lookup(section, NewKey).Some?
      modifies this
      ensures section == RemoveKey(old(section), NewKey)
    {
      section := RemoveKey(section, NewKey);
    }
  }
}
