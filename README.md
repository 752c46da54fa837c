# dnspod reconciliation model

This project is a Dafny model of the reconciliation core of `dnspod.py`. That
Python 2 command-line client keeps the DNS records of the domains hosted at
dnspod.cn in line with an INI-style configuration file.

Each domain is a configuration section, and a section holds two kinds of option:
- `new`: a comma-separated list of record literals to create;
- every other option is a reassignment. Its key is the literal of a record that
  should be live, and its value is the literal that replaces that record.

A record literal is `sub_domain record_type record_line value [attr:value ...]`.

The model covers:
- the literal parser (`str2record`) and the Python string operations it relies on
  (`split()`, `split(c)`, `strip()`, `upper()`);
- the record sets derived from a section (`get_domains`, `get_domain_old_records`,
  `_get_domain_old_records`, `get_domain_new_records`);
- the matcher (`is_exist`), which finds the first provider record that agrees on
  sub-domain, type, line and value;
- the two validations `check_exist` and `check_not_exist`, strict or lenient;
- `create_records`, `modify_records` and the dry run `will_action`;
- the start-up of `DnsPod`: read the login token, bind each provider domain to
  its section, then `check_domains`;
- `main`: the exactly-one-flag rule and the loop over the provider's domains. For
  `-a` this means create, then `pop('new')`, then modify.

The model has three layers:
- **Value level.** Modules `PyStr`, `Records`, `Matcher`, `Config` and `Reconcile`.
  A *plan* is the list of provider requests (`Call`s) an operation would post, in
  order, or the exception it would raise first. Exceptions are `Error` values.
- **Stateful level.** Module `Session`. The provider account (`Provider`) logs
  every request it receives. `Record.List` is `listing(domainId, requestsSoFar)`,
  a function the caller supplies, so each operation reads the records as they are
  after earlier requests. `Domain` is the source's class. Its methods have the
  source's loops and are proved to post exactly their plan.
- **Driver.** Module `Cli`. `Run` is `main` after the configuration file has been
  read. It is proved to post exactly the requests of `RunSpec`, and to end and
  report as `RunSpec` says.

Properties proved:
- A literal fails to parse exactly when it has fewer than three tokens, or when
  an extra token does not hold exactly one `:`. Tokens map to fields in order,
  with the type upper-cased and later tokens overwriting earlier ones.
- The matcher returns the id of the *first* matching provider record, compares
  only the four fields, and raises exactly when a record with no `value` meets
  one that agrees on the other three.
- The checks raise exactly on a lookup `KeyError` or, in strict mode, on a
  violation, and then for the first offending record. In lenient mode they never
  raise `AlreadyExists` or `NotExist`.
- Strict `modify_records` succeeds exactly when every old record is live and no
  new record is. It then rewrites every pair, in order, at the old record's id.
  Lenient mode rewrites exactly the qualifying pairs.
- `create_records` issues one create per literal, in order. Both it and
  `modify_records` raise the exception of their first failing step: the parse,
  then each check in turn.
- `will_action` posts nothing. It returns exactly when `create_records`' parse
  and check and `modify_records`' validation all pass, which in its lenient
  default holds whenever every literal parses and every record has a `value`.
  It then reports the declared new records that are not live, in declared order
  and with repeats kept, and the rewrites `modify_records` would make. When only
  its reassignment half raises, the creates are still reported.
- A run with other than one flag fails before anything is posted. The `-c` run
  posts nothing. Every request carries the login token and the id of a provider
  domain. In a `-a` turn creates come before modifies. A failing domain ends the
  run.

Behaviour of the code worth knowing, each proved as stated:
- **Three-token literals parse.** The arity test rejects only literals of fewer
  than three tokens, although the error message it raises (dnspod.py:38-39) asks
  for at least four attributes. A three-token literal parses to a record without
  `value`. The matcher then raises `KeyError` on a provider record with the same
  sub-domain, type and line (`Records.ThreeTokenLiteral`, `Matcher.MatchFails`).
- **An exception ends the whole run.** Nothing in the loops of `main`
  (dnspod.py:309-324) catches an exception, so it leaves the loop and later
  domains are never visited (`Cli.RunStopsAtFailure`).
- **A missing section is an error.** A domain listed by the provider but absent
  from the configuration makes `conf[name]` (dnspod.py:76) raise while the
  provider's domain list is turned into `Domain` objects at start-up
  (`NoSuchSection`, `Cli.BindDomains`). `check_domains` checks only the other
  direction.
- **`-a` is not atomic.** When its modify half fails, the creates already posted
  stay (`Cli.ModifyAfter`).
- **The dry run prints before it validates.** `will_action` prints its creates
  before it parses and checks the reassignments, so a reassignment that raises
  still leaves the creates printed (`Reconcile.DryRunPrinted`).

## Model

| member | source | states |
|---|---|---|
| PyStr.Tokens | dnspod.py:36 | `split()` yields non-empty tokens free of whitespace |
| PyStr.TokensCons | dnspod.py:36 | `split()` of whitespace, a word and a rest that starts with whitespace gives that word followed by the tokens of the rest |
| PyStr.TokensOfJoin | dnspod.py:36 | splitting a space-joined list of words gives the words back |
| PyStr.Strip | dnspod.py:97 | `strip()` removes exactly a leading and a trailing run of whitespace |
| PyStr.StripKeepsTokens | dnspod.py:97 | stripping a literal before parsing it does not change its tokens |
| PyStr.SplitOn | dnspod.py:51 | `split(c)` gives one more piece than `c` occurs, and no piece contains `c` |
| PyStr.JoinOnSplitOn | dnspod.py:98 | joining the pieces of `split(c)` with `c` restores the string |
| PyStr.Upper | dnspod.py:44 | `upper()` keeps the length, maps each lower-case ASCII letter to its capital and leaves other characters |
| Records.StrToRecord | dnspod.py:34-56 | the parsing loop returns exactly the record, or the error, of `ParseRecord` |
| Records.ParseRecord | dnspod.py:34-56 | a parsed record always has `sub_domain`, `record_type` and `record_line` |
| Records.ParseRecordFails | dnspod.py:36-55 | parsing fails iff there are fewer than 3 tokens or some token after the fourth does not split on `:` into 2 parts |
| Records.ParsedCoreFields | dnspod.py:40-48 | tokens 0-3 give sub-domain, upper-cased type, line and value, unless an extra token names that attribute |
| Records.ParsedExtras | dnspod.py:49-52 | each extra `attr:value` token sets `attr` to `value`, unless a later token names it again |
| Records.ParsedKeysOnly | dnspod.py:40-52 | a parsed record has no attribute besides the four core ones and the extra tokens' names |
| Records.ParsedValuePresence | dnspod.py:36-48 | a parsed record has `value` iff the literal has at least 4 tokens |
| Records.ThreeTokenLiteral | dnspod.py:36-48 | a three-token literal parses, to a record without `value` |
| Records.AssembleLastWrite | dnspod.py:40-52 | the last token that writes an attribute decides its value |
| Matcher.Compare | dnspod.py:123-126 | one comparison is true iff the four fields agree; it raises only for an attribute the declared record lacks |
| Matcher.FindMatch | dnspod.py:115-129 | `is_exist` returns the id of the first matching provider record, none only when no record matches, or the `KeyError` of an attribute the declared record lacks |
| Matcher.CompareMeaning | dnspod.py:123-126 | one comparison is true iff all four fields agree, and raises iff `value` is missing and the other three agree |
| Matcher.FirstMatchFromMeaning | dnspod.py:119-129 | the scan from any position finds the first match after it, reports none, or raises, each exactly when stated |
| Matcher.MatchFails | dnspod.py:115-129 | `is_exist` raises `KeyError('value')` iff the record has no `value` and some provider record agrees on the other three fields |
| Matcher.MatchTotal | dnspod.py:115-129 | a record with a `value` never makes `is_exist` raise |
| Matcher.MatchIsFirst | dnspod.py:119-129 | the index found is that of the first matching provider record |
| Matcher.MatchNone | dnspod.py:119-129 | for a declared record with the three core fields and a `value`, `is_exist` gives no id iff no provider record matches |
| Matcher.MatchReflexive | dnspod.py:119-129 | a provider record with the declared four fields is always found, whatever its id or status |
| Matcher.MatchIgnoresOtherFields | dnspod.py:123-126 | only the four compared fields decide the result; ids, extra attributes and status do not |
| Session.Domain.IsExist | dnspod.py:115-129 | the loop with `break` returns exactly the first match's id, none, or the `KeyError` |
| Config.Domains | dnspod.py:29-32 | `get_domains` lists exactly the names of the sections that contain a dot |
| Config.SectionOf | dnspod.py:76 | `conf[name]` finds a section iff one has that name, and then it is the first section of that name |
| Config.Lookup | dnspod.py:95 | `section.get(key)` finds a value iff an option has that name, and then it is the value of the first option of that name |
| Config.HasNew | dnspod.py:95 | `section.get('new')` is true iff the first `new` option has a non-empty value |
| Config.LoginToken | dnspod.py:75 | `conf.get('auth', 'login_token')` succeeds iff section `auth` and its option `login_token` exist, giving the first such option of the first such section; otherwise the lookup error |
| Config.RemoveKey | dnspod.py:322 | `pop('new')` leaves exactly the other options, in order |
| Config.RemoveKeyAppend | dnspod.py:322 | removing an option from two concatenated parts of a section removes it from each part |
| Config.RemoveNewKeepsPairs | dnspod.py:322 | after `pop('new')` the reassignments are unchanged and `new` is gone |
| Config.OldRecordKeysMeaning | dnspod.py:62-63 | `_get_domain_old_records` lists exactly the option names other than `new` |
| Config.OldRecordKeysAppend | dnspod.py:62-63 | the reassignment keys follow section order: those of two concatenated parts are the keys of the first, then those of the second |
| Config.NewValuesAreLookups | dnspod.py:65-67 | when option names are distinct, the literal paired with each key is `self.get(domain, key)`, one per key |
| Config.DomainOldRecords | dnspod.py:58-60 | `get_domain_old_records` succeeds iff every reassignment key parses, giving each key's record in order |
| Config.DomainNewRecords | dnspod.py:65-67 | `get_domain_new_records` succeeds iff every reassignment value parses, giving each value's record in order |
| Config.ParseAll | dnspod.py:59-60 | the comprehension succeeds iff every literal parses, giving each literal's record in order |
| Config.ParseAllFirstError | dnspod.py:59-60 | a failing comprehension raises the error of the first literal that does not parse |
| Config.NewLiterals | dnspod.py:97-98 | the `new` option gives one stripped literal per comma-separated piece |
| Reconcile.Form | dnspod.py:101-104 | the posted form is the record plus `login_token`, `format` (json), `domain_id` and, for a modify, `record_id`; the added fields override declared ones |
| Reconcile.CheckExistSpec | dnspod.py:131-143 | `check_exist` passes iff no lookup raises and, in strict mode, no new record is live |
| Reconcile.CheckNotExistSpec | dnspod.py:145-157 | `check_not_exist` passes iff no lookup raises and, in strict mode, every old record is live |
| Reconcile.CheckExistFirstViolation | dnspod.py:135-141 | a failing `check_exist` raises for the first offending record |
| Reconcile.CheckNotExistFirstViolation | dnspod.py:149-155 | a failing `check_not_exist` raises for the first offending record |
| Reconcile.LenientChecksOnlyWarn | dnspod.py:140-157 | lenient checks raise at most `KeyError('value')`, and never when every record has a `value` |
| Reconcile.NewRecords | dnspod.py:97-98 | the `new` option parses iff every stripped comma-separated piece parses, giving one record per piece, in order |
| Reconcile.CreatePlan | dnspod.py:91-105 | an absent or empty `new` raises; success posts one create per declared record, in order, and in strict mode none of them is live |
| Reconcile.CreatePlanErrors | dnspod.py:95-100 | with `new` present, `create_records` raises the parse error of `new` if there is one, and otherwise succeeds iff `check_exist` passes, raising its error when not |
| Reconcile.CreatePlanMeaning | dnspod.py:95-105 | with `new` present, `create_records` succeeds iff no lookup raises and, in strict mode, no new record is live; it then creates each literal once, in order |
| Reconcile.CreatePlanTagged | dnspod.py:101-105 | every request `create_records` posts is a create for its own domain with the login token |
| Reconcile.LenientCreateAttemptsAll | dnspod.py:97-105 | lenient `create_records` creates every declared record, even live ones, when all have a `value` |
| Reconcile.CreateCallsPointwise | dnspod.py:101-105 | one create per record, in record order |
| Reconcile.ModifyCallsPointwise | dnspod.py:173-178 | one modify per rewrite, in order, at the rewrite's record id with its new record |
| Reconcile.RewritePlan | dnspod.py:159-173 | the validation raises the error of the old-record parse, else of the new-record parse, else of `check_exist`, else of `check_not_exist`, and passes iff both checks do; on success no lookup of a declared record raises, and each rewrite is a declared pair whose old record is live at that id and whose new record is not |
| Reconcile.ModifyPlan | dnspod.py:159-178 | `modify_records` fails iff its validation does, with that error, and otherwise posts one modify per rewrite, in order |
| Reconcile.ModifyPlanMeaning | dnspod.py:159-178 | each modify posted targets a live old record at its id and sends the new record of the same declared pair, which is not live |
| Reconcile.ModifyPlanTagged | dnspod.py:174-178 | every request `modify_records` posts is a modify for its own domain with the login token |
| Reconcile.RewritesSound | dnspod.py:167-173 | every rewrite comes from a declared pair whose old record is live, at that id, and whose new record is not |
| Reconcile.RewritesComplete | dnspod.py:167-173 | every declared pair whose old record is live and whose new record is not is rewritten |
| Reconcile.RewritesAppend | dnspod.py:166-167 | rewrites follow the declared order of the pairs |
| Reconcile.RewritesAll | dnspod.py:166-178 | when every pair qualifies, each is rewritten, in order, at its old record's id |
| Reconcile.StrictRewritePlan | dnspod.py:159-173 | strict validation passes iff every old record is live and every new record is not, and then every declared pair is rewritten |
| Reconcile.StrictModify | dnspod.py:159-178 | strict `modify_records` succeeds iff every old record is live and no new record is, then rewrites every pair in order |
| Reconcile.LenientModify | dnspod.py:159-178 | lenient `modify_records` never raises when every record has a `value`, and rewrites exactly the qualifying pairs |
| Reconcile.SingleReassignment | dnspod.py:166-178 | one reassignment with a live old record gives exactly one modify at its id, or none if the new record is live too |
| Reconcile.AbsentOnesMeaning | dnspod.py:210-212 | the records reported for creation are exactly the declared ones that are not live |
| Reconcile.AbsentOnesAppend | dnspod.py:210-212 | the reported records keep declared order: those of two concatenated lists are the first list's, then the second's |
| Reconcile.WouldCreatePlan | dnspod.py:206-212 | the create half of the dry run reports nothing without `new`; otherwise it raises the parse error of `new`, else succeeds iff `check_exist` passes, raising its error when not, and then reports the declared new records that are not live, in order |
| Reconcile.WillActionPlan | dnspod.py:199-224 | the dry run succeeds iff its create half and the validation of `modify_records` both do, raising the create half's error first and the validation's next; it reports the create half's records and the rewrites `modify_records` would make |
| Reconcile.LenientDryRun | dnspod.py:199-224 | the lenient dry run of `-c` never raises when every literal parses and every record has a `value`, and reports the absent new records in order and every qualifying rewrite |
| Reconcile.DryRunPrinted | dnspod.py:206-224 | on success the one full report is printed; a failing create half prints nothing; a failing reassignment half still prints the creates, with no rewrites |
| Reconcile.PreviewMeaning | dnspod.py:199-228 | the dry run reports creates for exactly the absent new records and the rewrites `modify_records` would post |
| Session.Provider.ListRecords | dnspod.py:78-89 | `Record.List` returns the domain's records as they are after the requests posted so far |
| Session.Provider.Post | dnspod.py:105 | a request is appended to the provider's log |
| Session.Domain.CheckExist | dnspod.py:131-143 | the loop gives exactly `CheckExistSpec` |
| Session.Domain.CheckNotExist | dnspod.py:145-157 | the loop gives exactly `CheckNotExistSpec` |
| Session.Domain.CreateRecords | dnspod.py:91-113 | on success the provider receives exactly the planned creates, in order; on an exception, nothing |
| Session.Domain.PostCreates | dnspod.py:101-105 | the posting loop sends one create per record, in order |
| Session.Domain.CheckReassignments | dnspod.py:160-164 | the validation of `modify_records` fails as its plan does, or gives the parsed old and new records, none of whose lookups raises |
| Session.Domain.Reassignment | dnspod.py:167-173 | one loop turn re-parses the pair and rewrites it iff its old record is live and its new one is not; its lookups cannot raise once the checks passed |
| Session.Domain.PlanRewrites | dnspod.py:166-173 | the loop collects exactly the qualifying rewrites, in declared order |
| Session.Domain.ModifyRecords | dnspod.py:159-188 | on success the provider receives exactly the planned modifies, in order; on an exception, nothing |
| Session.Domain.PostRewrites | dnspod.py:173-178 | the posting loop sends one modify per rewrite, in order |
| Session.Domain.WillAction | dnspod.py:199-224 | the dry run posts nothing, returns what `WillActionPlan` says and prints what `DryRunPrinted` says |
| Session.Domain.WouldCreate | dnspod.py:210-212 | the loop collects the new records that are not live, in order |
| Session.Domain.DropNew | dnspod.py:322 | `pop('new')` removes the `new` option and nothing else |
| Cli.ModeOf | dnspod.py:296-299 | the run proceeds iff exactly one flag is given, and the flag given selects its action |
| Cli.BindDomains | dnspod.py:248-249 | binding succeeds iff every provider domain has a section of its name, giving each the first section of its name; otherwise it raises for a provider domain without one |
| Cli.StartUp | dnspod.py:232-236 | start-up fails first on a missing login token, succeeds iff every provider domain has a section and every configured domain is a provider domain, and binds them in order |
| Cli.CheckDomains | dnspod.py:259-265 | `check_domains` fails iff some dotted section name is not among the provider's domain names |
| Cli.CheckStep | dnspod.py:309-311 | a `-c` turn posts nothing, prints at most one report, passes iff the dry run does, and prints no rewrites when it fails |
| Cli.ModifyAfter | dnspod.py:322-324 | the modify half of `-a` keeps the creates as a prefix, posts nothing more when it fails or when only `new` was configured, and otherwise appends the planned modifies |
| Cli.CreateThenModify | dnspod.py:320-324 | a failing create posts nothing and raises its error; otherwise the creates come first |
| Cli.CombinedStep | dnspod.py:318-324 | a `-a` turn prints nothing, does nothing for an empty section, and posts only modifies when `new` is empty or absent |
| Cli.Step | dnspod.py:305-324 | `-c`, `-d` and `-r` post nothing; `-d` and `-r` also never fail; only `-c` prints reports; `-n` posts only creates and `-m` only modifies |
| Cli.RunDomains | dnspod.py:309-324 | a failing run fails with the error of one of its domains' turns |
| Cli.RunSpec | dnspod.py:292-324 | a bad flag count or a missing login token fails with nothing posted; a run that posts or prints anything passed start-up; a run that posts passed `check_domains` and is not `-c` |
| Cli.Turn | dnspod.py:305-324 | one domain's turn posts and reports exactly what `Step` says for the selected action |
| Cli.CombinedTurn | dnspod.py:318-324 | the `-a` turn posts exactly `CombinedStep`'s requests |
| Cli.CreateThenModifyTurn | dnspod.py:320-324 | create, `pop('new')`, then modify against the records after the creates |
| Cli.RunTurns | dnspod.py:309-324 | the loop over the domains posts exactly `RunDomains`'s requests and stops at the first exception |
| Cli.Run | dnspod.py:292-324 | `main` posts exactly `RunSpec`'s requests, and ends and reports as it says |
| Cli.BadFlagsRejected | dnspod.py:296-299 | a flag count other than one fails with `BadArguments`, posting nothing |
| Cli.CheckModeIssuesNothing | dnspod.py:309-311 | the `-c` run posts no request |
| Cli.RunSilent | dnspod.py:309-311 | a run whose turns post nothing posts nothing |
| Cli.StepTagged | dnspod.py:305-324 | every request of a turn is for that domain and carries the login token |
| Cli.CombinedTagged | dnspod.py:318-324 | every request of a `-a` turn is for that domain and carries the login token |
| Cli.RunTagged | dnspod.py:305-324 | every request of a run carries the login token and the id of one of the provider's domains |
| Cli.CombinedOrder | dnspod.py:318-324 | in a `-a` turn no create follows a modify |
| Cli.CreateThenModifyOrder | dnspod.py:320-324 | after the creates of a `-a` turn only modifies follow |
| Cli.CombinedSpecialCases | dnspod.py:318-324 | `-a` on a section without `new` acts as `-m`, and on a section with only `new` as `-n` |
| Cli.RunStopsAtFailure | dnspod.py:310-324 | after a domain raises, later domains are never visited |
| Cli.RunComposes | dnspod.py:310-324 | when the first domains pass, the rest run after their requests, against the records those requests left |

## Left out

- Network and JSON handling is not modelled. `Record.List` is the caller-supplied `listing` function, and `Domain.List` is the list of provider domains passed to `Run`.
- The status-code checks of `get_dnspod_records` and `get_dnspod_domains` are not modelled, because they only test the network reply.
- Return codes of creates and modifies are not modelled. They only choose the printed `success`/`failed` and never stop a loop.
- Printing is not modelled apart from the dry run's reports (`Preview`): `print`, `warnings.warn`, the bookkeeping pops before a record is printed, and `show_dnspod_records`, `show_dnspod_domains`, `show_dnspod_domains_records`. Lenient mode's warnings are therefore silent passes.
- Cli.Step: the `-d` and `-r` actions only print, so their turns post nothing and never fail.
- Argument parsing (`argparse`) is not modelled; the flags arrive as booleans. Reading the configuration file (`configparser`) is not modelled either; it arrives as ordered sections. That leaves out `configparser`'s lower-casing of option names, its `DEFAULT` section, interpolation and its `:` delimiter.
- Python strings are modelled as ASCII-only: whitespace is the six ASCII space characters, and `upper()` capitalises only `a`-`z`.
- Provider record ids are assumed non-empty, so the truthiness of the id returned by `is_exist` is modelled as "found".
- Cli.CheckDomains: the error is `UnknownDomain` without the domain name. The message formats `domain`, which in Python 2 is the variable leaked from the comprehension at dnspod.py:260. It is the last `Domain` object of the provider's list, so the message shows that object's default `repr`, not a name; when the provider lists no domains the name is unbound and `NameError` is raised instead. The model keeps only the fact that the run fails at start-up.
- Cli.Run: the `Domain` object of each provider domain is built at its loop turn, not at start-up. Start-up first checks the login token and every `conf[name]` as the constructors do, with the same errors in the same order.
- Session.Domain.ModifyRecords: all lookups are made before any modify is posted, while the source interleaves them. Every lookup reads the one record list fetched at the start, so the requests and their order are the same.
- The `show` and `data_format` parameters are fixed at their defaults (`True`, `json`), as `main` uses them.
