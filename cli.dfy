/** The command-line driver: `main`, which accepts exactly one action flag,
    and `DnsPod`, which reads the login token, binds every domain the provider
    lists to its configuration section and checks that every configured domain
    is known to the provider, before the selected action runs over the
    provider's domains in order. An exception in any domain ends the whole run:
    the domains after it are not visited. */
module Cli {
  import opened Wrappers
  import opened Types
  import opened Config
  import opened Reconcile
  import opened Session

  /** The action flags `-d`, `-r`, `-c`, `-n`, `-m` and `-a`. */
  datatype Flags = Flags(showDomains: bool, showRecords: bool, checkAction: bool,
                         createNew: bool, modifyOnly: bool, createAndModify: bool)

  function Count(b: bool): nat {
    if b then 1 else 0
  }

  /** The number of action flags given. */
  function FlagCount(f: Flags): nat {
    Count(f.showDomains) + Count(f.showRecords) + Count(f.checkAction) +
    Count(f.createNew) + Count(f.modifyOnly) + Count(f.createAndModify)
  }

  datatype Mode = ShowDomains | ShowRecords | CheckAction | CreateNew | ModifyOnly | CreateAndModify

  /** The action `main` runs: exactly one flag must be given, and it selects its action. */
  function ModeOf(f: Flags): (m: Result<Mode, Error>)
    ensures m.Ok? <==> FlagCount(f) == 1
    ensures m.Err? ==> m.error == BadArguments
    ensures m == Ok(ShowDomains) <==> FlagCount(f) == 1 && f.showDomains
    ensures m == Ok(ShowRecords) <==> FlagCount(f) == 1 && f.showRecords
    ensures m == Ok(CheckAction) <==> FlagCount(f) == 1 && f.checkAction
    ensures m == Ok(CreateNew) <==> FlagCount(f) == 1 && f.createNew
    ensures m == Ok(ModifyOnly) <==> FlagCount(f) == 1 && f.modifyOnly
    ensures m == Ok(CreateAndModify) <==> FlagCount(f) == 1 && f.createAndModify
  {
    if FlagCount(f) != 1 then Err(BadArguments)
    else if f.showDomains then Ok(ShowDomains)
    else if f.showRecords then Ok(ShowRecords)
    else if f.checkAction then Ok(CheckAction)
    else if f.createNew then Ok(CreateNew)
    else if f.modifyOnly then Ok(ModifyOnly)
    else Ok(CreateAndModify)
  }

  // ---------------------------------------------------------------------------
  // Start-up

  /** An entry of the provider's `Domain.List`. */
  datatype ProviderDomain = ProviderDomain(id: string, name: string)

  /** A provider domain bound to its configuration section. */
  datatype Bound = Bound(id: string, name: string, section: Section)

  function ProviderNames(pds: seq<ProviderDomain>): (r: seq<string>)
    ensures |r| == |pds| && forall i :: 0 <= i < |pds| ==> r[i] == pds[i].name
  {
    seq(|pds|, i requires 0 <= i < |pds| => pds[i].name)
  }

  /** Building a `Domain` for every provider domain: each needs the
      configuration section of the same name (`conf[name]`). */
  function BindDomains(conf: ConfigFile, pds: seq<ProviderDomain>): (r: Result<seq<Bound>, Error>)
    ensures r.Ok? <==> forall i :: 0 <= i < |pds| ==> pds[i].name in SectionNames(conf)
    ensures r.Ok? ==> |r.value| == |pds|
    ensures r.Ok? ==> forall i :: 0 <= i < |pds| ==>
      r.value[i] == Bound(pds[i].id, pds[i].name, SectionOf(conf, pds[i].name).value)
    ensures r.Err? ==>
      && r.error.NoSuchSection? && r.error.name !in SectionNames(conf)
      && exists i :: 0 <= i < |pds| && pds[i].name == r.error.name
    decreases |pds|
  {
    if pds == [] then Ok([])
    else
      match SectionOf(conf, pds[0].name)
      case None => Err(NoSuchSection(pds[0].name))
      case Some(sec) =>
        assert forall i :: 1 <= i < |pds| ==> pds[i] == pds[1..][i - 1];
        match BindDomains(conf, pds[1..])
        case Err(e) => Err(e)
        case Ok(rest) => Ok([Bound(pds[0].id, pds[0].name, sec)] + rest)
  }

  /** Every configured domain is one the provider lists. */
  predicate AllConfiguredKnown(conf: ConfigFile, pds: seq<ProviderDomain>) {
    forall d :: d in Domains(conf) ==> d in ProviderNames(pds)
  }

  /** `check_domains`: fails exactly when some configured domain is unknown to the provider. */
  method CheckDomains(conf: ConfigFile, pds: seq<ProviderDomain>) returns (res: Outcome<Error>)
    ensures res.Pass? <==> AllConfiguredKnown(conf, pds)
    ensures res.Fail? ==> res.error == UnknownDomain
  {
    var dnsDomains := ProviderNames(pds);
    var cfgDomains := Domains(conf);
    for i := 0 to |cfgDomains|
      invariant forall j :: 0 <= j < i ==> cfgDomains[j] in dnsDomains
    {
      if cfgDomains[i] !in dnsDomains {
        return Fail(UnknownDomain);
      }
    }
    return Pass;
  }

  /** `DnsPod(conf)`: the login token and the bound provider domains, or the
      first start-up error. */
  function StartUp(conf: ConfigFile, pds: seq<ProviderDomain>): (r: Result<(string, seq<Bound>), Error>)
    ensures LoginToken(conf).Err? ==> r == Err(MissingLoginToken)
    ensures r.Ok? <==>
      && LoginToken(conf).Ok?
      && (forall i :: 0 <= i < |pds| ==> pds[i].name in SectionNames(conf))
      && AllConfiguredKnown(conf, pds)
    ensures r.Ok? ==>
      && r.value.0 == LoginToken(conf).value && |r.value.1| == |pds|
      && forall i :: 0 <= i < |pds| ==> r.value.1[i] == Bound(pds[i].id, pds[i].name, SectionOf(conf, pds[i].name).value)
    ensures LoginToken(conf).Ok? && BindDomains(conf, pds).Ok? && r.Err? ==> r.error == UnknownDomain
  {
    match LoginToken(conf)
    case Err(e) => Err(e)
    case Ok(token) =>
      match BindDomains(conf, pds)
      case Err(e) => Err(e)
      case Ok(bs) => if AllConfiguredKnown(conf, pds) then Ok((token, bs)) else Err(UnknownDomain)
  }

  // ---------------------------------------------------------------------------
  // The run

  /** What a run, or a part of it, does: the requests it posts, how it ends,
      and the dry-run reports it prints. */
  datatype Report = Report(calls: seq<Call>, outcome: Outcome<Error>, previews: seq<Preview>)

  type Listing = (string, seq<Call>) -> seq<ProviderRecord>

  /** What one domain's turn does, given the requests posted before it. */
  type StepFn = (Bound, seq<Call>) -> Report

  function FromPlan(p: Result<seq<Call>, Error>): Report {
    match p
    case Err(e) => Report([], Fail(e), [])
    case Ok(cs) => Report(cs, Pass, [])
  }

  /** The dry-run turn (`-c`), lenient: it posts nothing, and prints at most
      one report, which holds no rewrites when the turn fails. */
  function CheckStep(b: Bound, listing: Listing, h: seq<Call>): (r: Report)
    ensures var plan := WillActionPlan(b.name, b.section, listing(b.id, h), false);
      && r.calls == []
      && |r.previews| <= 1
      && (r.outcome.Pass? <==> plan.Ok?)
      && (plan.Ok? ==> r.previews == [plan.value])
      && (plan.Err? ==> r.outcome == Fail(plan.error) && forall p :: p in r.previews ==> p.rewrites == [])
  {
    var ps := listing(b.id, h);
    var printed := DryRunPrinted(b.name, b.section, ps, false);
    match WillActionPlan(b.name, b.section, ps, false)
    case Err(e) => Report([], Fail(e), printed)
    case Ok(p) => Report([], Pass, printed)
  }

  /** The modify half of a `-a` turn, after the creates `creates` were posted. */
  function ModifyAfter(b: Bound, token: string, listing: Listing, h: seq<Call>, creates: seq<Call>): (r: Report)
    ensures creates <= r.calls && r.previews == []
    ensures RemoveKey(b.section, NewKey) == [] ==> r == Report(creates, Pass, [])
    ensures r.outcome.Fail? ==> r.calls == creates
    ensures RemoveKey(b.section, NewKey) != [] ==>
      var mp := ModifyPlan(b.name, b.id, token, RemoveKey(b.section, NewKey), listing(b.id, h + creates), true);
      (r.outcome.Pass? <==> mp.Ok?) && (mp.Ok? ==> r.calls == creates + mp.value)
  {
    var rest := RemoveKey(b.section, NewKey);
    if rest == [] then Report(creates, Pass, [])
    else
      match ModifyPlan(b.name, b.id, token, rest, listing(b.id, h + creates), true)
      case Err(e) => Report(creates, Fail(e), [])
      case Ok(mods) => Report(creates + mods, Pass, [])
  }

  /** The `-a` turn of a domain whose `new` option is non-empty: create, and
      modify after the creates unless the creates failed. */
  function CreateThenModify(b: Bound, token: string, listing: Listing, h: seq<Call>): (r: Report)
    ensures var cp := CreatePlan(b.name, b.id, token, b.section, listing(b.id, h), true);
      && r.previews == []
      && (cp.Err? ==> r == Report([], Fail(cp.error), []))
      && (cp.Ok? ==> cp.value <= r.calls)
  {
    match CreatePlan(b.name, b.id, token, b.section, listing(b.id, h), true)
    case Err(e) => Report([], Fail(e), [])
    case Ok(creates) => ModifyAfter(b, token, listing, h, creates)
  }

  /** The `-a` turn of one domain: create when `new` is non-empty, then drop
      `new`, then modify when the section still holds an option, against the
      records as they are after the creates. */
  function CombinedStep(b: Bound, token: string, listing: Listing, h: seq<Call>): (r: Report)
    ensures r.previews == []
    ensures b.section == [] ==> r == Report([], Pass, [])
    ensures !HasNew(b.section) ==> forall c :: c in r.calls ==> c.Modify?
  {
    if HasNew(b.section) then CreateThenModify(b, token, listing, h)
    else if b.section == [] then Report([], Pass, [])
    else FromPlan(ModifyPlan(b.name, b.id, token, b.section, listing(b.id, h), true))
  }

  /** One domain's turn of the selected action, after the requests `h`. The
      two display actions post nothing and raise nothing here. */
  function Step(mode: Mode, b: Bound, token: string, listing: Listing, h: seq<Call>): (r: Report)
    ensures mode.CheckAction? || mode.ShowDomains? || mode.ShowRecords? ==> r.calls == []
    ensures mode.ShowDomains? || mode.ShowRecords? ==> r == Report([], Pass, [])
    ensures !mode.CheckAction? ==> r.previews == []
    ensures mode.CreateNew? ==> forall c :: c in r.calls ==> c.Create?
    ensures mode.ModifyOnly? ==> forall c :: c in r.calls ==> c.Modify?
  {
    match mode
    case CheckAction => CheckStep(b, listing, h)
    case CreateNew => FromPlan(CreatePlan(b.name, b.id, token, b.section, listing(b.id, h), true))
    case ModifyOnly => FromPlan(ModifyPlan(b.name, b.id, token, b.section, listing(b.id, h), true))
    case CreateAndModify => CombinedStep(b, token, listing, h)
    case ShowDomains => Report([], Pass, [])
    case ShowRecords => Report([], Pass, [])
  }

  function StepOf(mode: Mode, token: string, listing: Listing): StepFn {
    (b: Bound, h: seq<Call>) => Step(mode, b, token, listing, h)
  }

  /** `r` preceded by requests `cs` and reports `pv` made before it. */
  function After(cs: seq<Call>, pv: seq<Preview>, r: Report): Report {
    Report(cs + r.calls, r.outcome, pv + r.previews)
  }

  /** The turns over the domains `bs`, in order, each after the requests of
      those before it, stopping at the first failure. */
  function RunDomains(step: StepFn, bs: seq<Bound>, h: seq<Call>): (r: Report)
    ensures bs == [] ==> r == Report([], Pass, [])
    ensures r.outcome.Fail? ==> exists k, h' :: 0 <= k < |bs| && step(bs[k], h').outcome == r.outcome
    decreases |bs|
  {
    if bs == [] then Report([], Pass, [])
    else
      var r := step(bs[0], h);
      if r.outcome.Fail? then r
      else After(r.calls, r.previews, RunDomains(step, bs[1..], h + r.calls))
  }

  /** `main`, from the flags, the configuration file and the provider's domain
      list, after the requests `h`. */
  function RunSpec(flags: Flags, conf: ConfigFile, pds: seq<ProviderDomain>, listing: Listing, h: seq<Call>): (r: Report)
    ensures FlagCount(flags) != 1 ==> r == Report([], Fail(BadArguments), [])
    ensures FlagCount(flags) == 1 && LoginToken(conf).Err? ==> r == Report([], Fail(MissingLoginToken), [])
    ensures r.calls != [] || r.previews != [] ==> FlagCount(flags) == 1 && StartUp(conf, pds).Ok?
    ensures r.calls != [] ==> AllConfiguredKnown(conf, pds) && !flags.checkAction
  {
    match ModeOf(flags)
    case Err(e) => Report([], Fail(e), [])
    case Ok(mode) =>
      match StartUp(conf, pds)
      case Err(e) => Report([], Fail(e), [])
      case Ok(st) =>
        var r := RunDomains(StepOf(mode, st.0, listing), st.1, h);
        assert mode.CheckAction? ==> r.calls == [] by {
          if mode.CheckAction? {
            CheckModeIssuesNothing(st.1, st.0, listing, h);
          }
        }
        r
  }

  /** The `-a` turn, on the `Domain` object. */
  method CombinedTurn(d: Domain, api: Provider) returns (outcome: Outcome<Error>)
    modifies api, d
    ensures var r := CombinedStep(Bound(d.id, d.name, old(d.section)), d.token, api.listing, old(api.calls));
      outcome == r.outcome && r.previews == [] && api.calls == old(api.calls) + r.calls
  {
    var v := Lookup(d.section, NewKey);
    if v.Some? && v.value != [] {
      outcome := CreateThenModifyTurn(d, api);
    } else if d.section != [] {
      outcome := d.ModifyRecords(api, true);
    } else {
      outcome := Pass;
    }
  }

  /** Create, drop `new`, then modify if anything is left. */
  method CreateThenModifyTurn(d: Domain, api: Provider) returns (outcome: Outcome<Error>)
    requires HasNew(d.section)
    modifies api, d
    ensures var r := CreateThenModify(Bound(d.id, d.name, old(d.section)), d.token, api.listing, old(api.calls));
      outcome == r.outcome && r.previews == [] && api.calls == old(api.calls) + r.calls
  {
    ghost var h := api.calls;
    ghost var b := Bound(d.id, d.name, d.section);
    outcome := d.CreateRecords(api, true);
    ghost var cp := CreatePlan(b.name, b.id, d.token, b.section, api.listing(b.id, h), true);
    if outcome.Fail? {
      return;
    }
    assert cp.Ok? && api.calls == h + cp.value;
    d.DropNew();
    assert d.section == RemoveKey(b.section, NewKey);
    if d.section != [] {
      ghost var mp := ModifyPlan(b.name, b.id, d.token, d.section, api.listing(b.id, h + cp.value), true);
      outcome := d.ModifyRecords(api, true);
      if mp.Ok? {
        Associative(h, cp.value, mp.value);
      }
    }
  }

  /** One domain's turn, as `main` runs it on the domain's `Domain` object. */
  method Turn(mode: Mode, b: Bound, token: string, api: Provider) returns (outcome: Outcome<Error>, previews: seq<Preview>)
    modifies api
    ensures var r := Step(mode, b, token, api.listing, old(api.calls));
      outcome == r.outcome && previews == r.previews && api.calls == old(api.calls) + r.calls
  {
    var d := new Domain(b.id, b.name, token, b.section);
    previews := [];
    match mode {
      case CheckAction =>
        var p, printed := d.WillAction(api, false);
        outcome := if p.Err? then Fail(p.error) else Pass;
        previews := printed;
      case CreateNew =>
        outcome := d.CreateRecords(api, true);
      case ModifyOnly =>
        outcome := d.ModifyRecords(api, true);
      case CreateAndModify =>
        outcome := CombinedTurn(d, api);
      case ShowDomains =>
        outcome := Pass;
      case ShowRecords =>
        outcome := Pass;
    }
  }

  /** The loop of `main` over the provider's domains. */
  method RunTurns(mode: Mode, token: string, bs: seq<Bound>, api: Provider) returns (outcome: Outcome<Error>, previews: seq<Preview>)
    modifies api
    ensures var r := RunDomains(StepOf(mode, token, api.listing), bs, old(api.calls));
      outcome == r.outcome && previews == r.previews && api.calls == old(api.calls) + r.calls
  {
    ghost var step := StepOf(mode, token, api.listing);
    ghost var h0 := api.calls;
    ghost var done: seq<Call> := [];
    previews := [];
    for i := 0 to |bs|
      invariant api.calls == h0 + done
      invariant RunDomains(step, bs, h0) == After(done, previews, RunDomains(step, bs[i..], h0 + done))
    {
      var o, pv := Turn(mode, bs[i], token, api);
      ghost var r := step(bs[i], h0 + done);
      assert o == r.outcome && pv == r.previews && api.calls == h0 + done + r.calls;
      RunUnfold(step, bs, i, h0 + done);
      Associative(h0, done, r.calls);
      if o.Fail? {
        return o, previews + pv;
      }
      AfterAfter(done, previews, r.calls, r.previews, RunDomains(step, bs[i + 1..], h0 + done + r.calls));
      done := done + r.calls;
      previews := previews + pv;
    }
    assert bs[|bs|..] == [];
    assert done + [] == done && previews + [] == previews;
    outcome := Pass;
  }

  /** `main`: the provider ends up with exactly the requests of `RunSpec`, and
      the run ends and reports as `RunSpec` says. */
  method Run(flags: Flags, conf: ConfigFile, pds: seq<ProviderDomain>, api: Provider)
    returns (outcome: Outcome<Error>, previews: seq<Preview>)
    modifies api
    ensures var r := RunSpec(flags, conf, pds, api.listing, old(api.calls));
      outcome == r.outcome && previews == r.previews && api.calls == old(api.calls) + r.calls
  {
    var mode := ModeOf(flags);
    if mode.Err? {
      return Fail(mode.error), [];
    }
    var token := LoginToken(conf);
    if token.Err? {
      return Fail(token.error), [];
    }
    var bound := BindDomains(conf, pds);
    if bound.Err? {
      return Fail(bound.error), [];
    }
    var known := CheckDomains(conf, pds);
    if known.Fail? {
      return known, [];
    }
    outcome, previews := RunTurns(mode.value, token.value, bound.value, api);
  }

  /** One turn of `RunDomains` from position `i`. */
  lemma RunUnfold(step: StepFn, bs: seq<Bound>, i: nat, h: seq<Call>)
    requires i < |bs|
    ensures var r := step(bs[i], h);
      RunDomains(step, bs[i..], h) ==
        if r.outcome.Fail? then r else After(r.calls, r.previews, RunDomains(step, bs[i + 1..], h + r.calls))
  {
    assert bs[i..][0] == bs[i] && bs[i..][1..] == bs[i + 1..];
  }

  lemma Associative(a: seq<Call>, b: seq<Call>, c: seq<Call>)
    ensures (a + b) + c == a + (b + c)
  {
  }

  lemma AfterAfter(cs: seq<Call>, pv: seq<Preview>, cs': seq<Call>, pv': seq<Preview>, r: Report)
    ensures After(cs, pv, After(cs', pv', r)) == After(cs + cs', pv + pv', r)
  {
    assert cs + (cs' + r.calls) == (cs + cs') + r.calls;
    assert pv + (pv' + r.previews) == (pv + pv') + r.previews;
  }

  // ---------------------------------------------------------------------------
  // Properties of a run

  /** A run whose flags are not exactly one action fails with `BadArguments`
      before it reads anything, and posts nothing. */
  lemma BadFlagsRejected(flags: Flags, conf: ConfigFile, pds: seq<ProviderDomain>, listing: Listing, h: seq<Call>)
    requires FlagCount(flags) != 1
    ensures RunSpec(flags, conf, pds, listing, h) == Report([], Fail(BadArguments), [])
  {
  }

  /** A run in which no turn posts anything posts nothing. */
  lemma {:induction false} RunSilent(step: StepFn, bs: seq<Bound>, h: seq<Call>)
    requires forall b, h' :: step(b, h').calls == []
    ensures RunDomains(step, bs, h).calls == []
    decreases |bs|
  {
    if bs != [] {
      RunSilent(step, bs[1..], h + step(bs[0], h).calls);
    }
  }

  /** The dry run (`-c`) posts nothing, whatever the domains. */
  lemma CheckModeIssuesNothing(bs: seq<Bound>, token: string, listing: Listing, h: seq<Call>)
    ensures RunDomains(StepOf(CheckAction, token, listing), bs, h).calls == []
  {
    RunSilent(StepOf(CheckAction, token, listing), bs, h);
  }

  /** Every request of a `-a` turn is for that domain and carries the login token. */
  lemma CombinedTagged(b: Bound, token: string, listing: Listing, h: seq<Call>)
    ensures forall c :: c in CombinedStep(b, token, listing, h).calls ==> c.domainId == b.id && c.token == token
  {
    var rest := RemoveKey(b.section, NewKey);
    CreatePlanTagged(b.name, b.id, token, b.section, listing(b.id, h), true);
    ModifyPlanTagged(b.name, b.id, token, b.section, listing(b.id, h), true);
    var cp := CreatePlan(b.name, b.id, token, b.section, listing(b.id, h), true);
    if HasNew(b.section) && cp.Ok? {
      ModifyPlanTagged(b.name, b.id, token, rest, listing(b.id, h + cp.value), true);
    }
  }

  /** Every request of a turn is for that domain and carries the login token. */
  lemma StepTagged(mode: Mode, b: Bound, token: string, listing: Listing, h: seq<Call>)
    ensures forall c :: c in Step(mode, b, token, listing, h).calls ==> c.domainId == b.id && c.token == token
  {
    match mode {
      case CreateNew => CreatePlanTagged(b.name, b.id, token, b.section, listing(b.id, h), true);
      case ModifyOnly => ModifyPlanTagged(b.name, b.id, token, b.section, listing(b.id, h), true);
      case CreateAndModify => CombinedTagged(b, token, listing, h);
      case _ =>
    }
  }

  /** Every request of a run is for one of its domains and carries the login token. */
  lemma {:induction false} RunTagged(mode: Mode, bs: seq<Bound>, token: string, listing: Listing, h: seq<Call>)
    ensures forall c :: c in RunDomains(StepOf(mode, token, listing), bs, h).calls ==>
      c.token == token && exists k :: 0 <= k < |bs| && bs[k].id == c.domainId
    decreases |bs|
  {
    if bs != [] {
      var step := StepOf(mode, token, listing);
      var r := step(bs[0], h);
      StepTagged(mode, bs[0], token, listing, h);
      if r.outcome.Pass? {
        var rest := RunDomains(step, bs[1..], h + r.calls);
        RunTagged(mode, bs[1..], token, listing, h + r.calls);
        forall c | c in rest.calls
          ensures exists k :: 0 <= k < |bs| && bs[k].id == c.domainId
        {
          var k :| 0 <= k < |bs[1..]| && bs[1..][k].id == c.domainId;
          assert bs[k + 1].id == c.domainId;
        }
      }
      forall c | c in r.calls
        ensures exists k :: 0 <= k < |bs| && bs[k].id == c.domainId
      {
        assert bs[0].id == c.domainId;
      }
    }
  }

  /** No create follows a modify in `cs`. */
  predicate CreatesFirst(cs: seq<Call>) {
    forall i, j :: 0 <= i < j < |cs| && cs[i].Modify? ==> cs[j].Modify?
  }

  /** In a `-a` turn every create comes before every modify. */
  lemma CombinedOrder(b: Bound, token: string, listing: Listing, h: seq<Call>)
    ensures CreatesFirst(CombinedStep(b, token, listing, h).calls)
  {
    if !HasNew(b.section) {
      OnlyModifies(CombinedStep(b, token, listing, h).calls);
    } else {
      CreateThenModifyOrder(b, token, listing, h);
    }
  }

  lemma CreateThenModifyOrder(b: Bound, token: string, listing: Listing, h: seq<Call>)
    ensures CreatesFirst(CreateThenModify(b, token, listing, h).calls)
  {
    var cp := CreatePlan(b.name, b.id, token, b.section, listing(b.id, h), true);
    if cp.Ok? {
      ModifyAfterOrder(b, token, listing, h, cp.value);
    }
  }

  lemma OnlyModifies(cs: seq<Call>)
    requires forall c :: c in cs ==> c.Modify?
    ensures CreatesFirst(cs)
  {
    forall i, j | 0 <= i < j < |cs| && cs[i].Modify?
      ensures cs[j].Modify?
    {
      assert cs[j] in cs;
    }
  }

  /** The modify half of a `-a` turn appends only modifies to its creates. */
  lemma ModifyAfterOrder(b: Bound, token: string, listing: Listing, h: seq<Call>, creates: seq<Call>)
    requires forall i :: 0 <= i < |creates| ==> creates[i].Create?
    ensures CreatesFirst(ModifyAfter(b, token, listing, h, creates).calls)
  {
    var rest := RemoveKey(b.section, NewKey);
    var mp := ModifyPlan(b.name, b.id, token, rest, listing(b.id, h + creates), true);
    var mods := if rest != [] && mp.Ok? then mp.value else [];
    assert ModifyAfter(b, token, listing, h, creates).calls == creates + mods;
    CreatesThenModifies(creates, mods);
  }

  lemma CreatesThenModifies(creates: seq<Call>, mods: seq<Call>)
    requires forall i :: 0 <= i < |creates| ==> creates[i].Create?
    requires forall i :: 0 <= i < |mods| ==> mods[i].Modify?
    ensures CreatesFirst(creates + mods)
  {
  }

  /** `-a` on a section without a non-empty `new` is `-m`, and on a section
      holding only `new` it is `-n`. */
  lemma CombinedSpecialCases(b: Bound, token: string, listing: Listing, h: seq<Call>)
    ensures !HasNew(b.section) && b.section != [] ==>
      Step(CreateAndModify, b, token, listing, h) == Step(ModifyOnly, b, token, listing, h)
    ensures HasNew(b.section) && OldPairs(b.section) == [] ==>
      Step(CreateAndModify, b, token, listing, h) == Step(CreateNew, b, token, listing, h)
  {
  }

  /** A failing domain ends the run: the domains after it are never visited. */
  lemma {:induction false} RunStopsAtFailure(step: StepFn, bs: seq<Bound>, more: seq<Bound>, h: seq<Call>)
    requires RunDomains(step, bs, h).outcome.Fail?
    ensures RunDomains(step, bs + more, h) == RunDomains(step, bs, h)
    decreases |bs|
  {
    var r := step(bs[0], h);
    assert (bs + more)[0] == bs[0];
    if r.outcome.Pass? {
      assert (bs + more)[1..] == bs[1..] + more;
      RunStopsAtFailure(step, bs[1..], more, h + r.calls);
    }
  }

  /** Runs compose: when the first domains all pass, the rest run after their
      requests, against the records those requests left. */
  lemma {:induction false} RunComposes(step: StepFn, bs: seq<Bound>, more: seq<Bound>, h: seq<Call>)
    requires RunDomains(step, bs, h).outcome.Pass?
    ensures var r := RunDomains(step, bs, h);
      RunDomains(step, bs + more, h) == After(r.calls, r.previews, RunDomains(step, more, h + r.calls))
    decreases |bs|
  {
    if bs == [] {
      assert bs + more == more;
      var x := RunDomains(step, more, h);
      assert [] + x.calls == x.calls && [] + x.previews == x.previews;
      assert h + [] == h;
    } else {
      var r := step(bs[0], h);
      assert (bs + more)[0] == bs[0];
      assert (bs + more)[1..] == bs[1..] + more;
      RunComposes(step, bs[1..], more, h + r.calls);
      var t := RunDomains(step, bs[1..], h + r.calls);
      AfterAfter(r.calls, r.previews, t.calls, t.previews, RunDomains(step, more, h + r.calls + t.calls));
      assert h + r.calls + t.calls == h + (r.calls + t.calls);
    }
  }
}
