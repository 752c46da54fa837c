/** The configuration-derived record sets (`Config.get_domains`,
    `get_domain_old_records`, `_get_domain_old_records`, `get_domain_new_records`).

    A section is the ordered list of its options. In a domain section the option
    `new` holds a comma-separated list of record literals to create; every other
    option is a reassignment whose key is the old record's literal and whose
    value is the new record's literal. The configuration reader keeps one value
    per option name, so the model reads each option's value from its own entry. */
module Config {
  import opened Wrappers
  import opened Types
  import opened PyStr
  import opened Records

  type Section = seq<(string, string)>

  /** The sections of an already-read configuration file, in file order. */
  datatype ConfigFile = ConfigFile(sections: seq<(string, Section)>)

  const NewKey := "new"
  const AuthSection := "auth"
  const LoginTokenKey := "login_token"

  function SectionNames(c: ConfigFile): (r: seq<string>)
    ensures |r| == |c.sections|
    ensures forall i :: 0 <= i < |r| ==> r[i] == c.sections[i].0
  {
    seq(|c.sections|, i requires 0 <= i < |c.sections| => c.sections[i].0)
  }

  /** `get_domains`: the section names that contain a dot, in file order. */
  function Domains(c: ConfigFile): (r: seq<string>)
    ensures forall d :: d in r <==> d in SectionNames(c) && '.' in d
    ensures |r| <= |c.sections|
  {
    FilterDomains(SectionNames(c))
  }

  function FilterDomains(names: seq<string>): (r: seq<string>)
    ensures forall d :: d in r <==> d in names && '.' in d
    ensures |r| <= |names|
    decreases |names|
  {
    if names == [] then []
    else (if '.' in names[0] then [names[0]] else []) + FilterDomains(names[1..])
  }

  /** The section stored under `name` (`conf[name]`): the first section of
      that name. */
  function SectionOf(c: ConfigFile, name: string): (r: Option<Section>)
    ensures r.Some? <==> name in SectionNames(c)
    ensures r.Some? ==> exists i :: FirstEntry(c.sections, i, name, r.value)
    decreases |c.sections|
  {
    if c.sections == [] then None
    else if c.sections[0].0 == name then
      assert FirstEntry(c.sections, 0, name, c.sections[0].1);
      Some(c.sections[0].1)
    else
      var r := SectionOf(ConfigFile(c.sections[1..]), name);
      FirstEntryCons(c.sections, name, r);
      r
  }

  /** Entry `i` of `entries` is `(key, v)`, and no entry before it has that key. */
  predicate FirstEntry<V(==)>(entries: seq<(string, V)>, i: int, key: string, v: V) {
    0 <= i < |entries| && entries[i] == (key, v) && forall j :: 0 <= j < i ==> entries[j].0 != key
  }

  lemma FirstEntryCons<V>(entries: seq<(string, V)>, key: string, r: Option<V>)
    requires entries != [] && entries[0].0 != key
    requires r.Some? ==> exists i :: FirstEntry(entries[1..], i, key, r.value)
    ensures r.Some? ==> exists i :: FirstEntry(entries, i, key, r.value)
  {
    if r.Some? {
      var i :| FirstEntry(entries[1..], i, key, r.value);
      assert FirstEntry(entries, i + 1, key, r.value) by {
        forall j | 0 <= j < i + 1 ensures entries[j].0 != key {
          if j > 0 { assert entries[j] == entries[1..][j - 1]; }
        }
      }
    }
  }

  /** The value of option `key` (`section.get(key)`): that of its first entry. */
  function Lookup(sec: Section, key: string): (r: Option<string>)
    ensures r.Some? <==> exists i :: 0 <= i < |sec| && sec[i].0 == key
    ensures r.Some? ==> exists i :: FirstEntry(sec, i, key, r.value)
    decreases |sec|
  {
    if sec == [] then None
    else if sec[0].0 == key then
      assert FirstEntry(sec, 0, key, sec[0].1);
      Some(sec[0].1)
    else
      var r := Lookup(sec[1..], key);
      FirstEntryCons(sec, key, r);
      r
  }

  /** The login token (`conf.get('auth', 'login_token')`): the value of option
      `login_token` in section `auth`; a missing section or option is an error. */
  function LoginToken(c: ConfigFile): (r: Result<string, Error>)
    ensures r.Ok? <==> SectionOf(c, AuthSection).Some? && Lookup(SectionOf(c, AuthSection).value, LoginTokenKey).Some?
    ensures r.Ok? ==> exists i, j :: 0 <= i < |c.sections| && FirstEntry(c.sections, i, AuthSection, c.sections[i].1) && FirstEntry(c.sections[i].1, j, LoginTokenKey, r.value)
    ensures r.Err? ==> r.error == MissingLoginToken
  {
    match SectionOf(c, AuthSection)
    case None => Err(MissingLoginToken)
    case Some(auth) =>
      match Lookup(auth, LoginTokenKey)
      case None => Err(MissingLoginToken)
      case Some(t) => Ok(t)
  }

  /** The section has a non-empty `new` option (the source's truthiness test):
      its first `new` entry holds a non-empty value. */
  function HasNew(sec: Section): (b: bool)
    ensures b <==> exists i :: 0 <= i < |sec| && FirstEntry(sec, i, NewKey, sec[i].1) && sec[i].1 != []
  {
    var v := Lookup(sec, NewKey);
    assert forall i :: 0 <= i < |sec| && FirstEntry(sec, i, NewKey, sec[i].1) ==> v == Some(sec[i].1) by {
      forall i | 0 <= i < |sec| && FirstEntry(sec, i, NewKey, sec[i].1) ensures v == Some(sec[i].1) {
        var k :| FirstEntry(sec, k, NewKey, v.value);
        assert !(k < i) && !(i < k);
      }
    }
    v.Some? && v.value != []
  }

  /** The section without its `new` option (`section.pop('new')`). */
  function RemoveKey(sec: Section, key: string): (r: Section)
    ensures forall i :: 0 <= i < |r| ==> r[i].0 != key
    ensures forall e :: e in r <==> e in sec && e.0 != key
    ensures |r| <= |sec|
    decreases |sec|
  {
    if sec == [] then []
    else (if sec[0].0 == key then [] else [sec[0]]) + RemoveKey(sec[1..], key)
  }

  /** Removing a key from a concatenation removes it from both parts, so the
      options left keep their order and multiplicity. */
  lemma {:induction false} RemoveKeyAppend(a: Section, b: Section, key: string)
    ensures RemoveKey(a + b, key) == RemoveKey(a, key) + RemoveKey(b, key)
    decreases |a|
  {
    if a == [] {
      assert a + b == b;
    } else {
      var rest := a[1..];
      assert a == [a[0]] + rest;
      assert a + b == [a[0]] + (rest + b);
      RemoveKeyCons(a[0], rest + b, key);
      RemoveKeyCons(a[0], rest, key);
      RemoveKeyAppend(rest, b, key);
      ConcatAssociative(if a[0].0 == key then [] else [a[0]], RemoveKey(rest, key), RemoveKey(b, key));
    }
  }

  lemma RemoveKeyCons(e: (string, string), rest: Section, key: string)
    ensures RemoveKey([e] + rest, key) == (if e.0 == key then [] else [e]) + RemoveKey(rest, key)
  {
    assert ([e] + rest)[0] == e && ([e] + rest)[1..] == rest;
  }

  lemma ConcatAssociative(a: Section, b: Section, c: Section)
    ensures (a + b) + c == a + (b + c)
  {
  }

  /** A single option survives exactly when it is not the key removed. */
  lemma RemoveKeySingle(e: (string, string), key: string)
    ensures RemoveKey([e], key) == if e.0 == key then [] else [e]
  {
    assert [e][1..] == [];
  }

  /** The reassignment options: every option but `new`, in section order. */
  function OldPairs(sec: Section): Section {
    RemoveKey(sec, NewKey)
  }

  /** `_get_domain_old_records`: the old-record literals, in section order. */
  function OldRecordKeys(sec: Section): (r: seq<string>)
    ensures |r| == |OldPairs(sec)|
    ensures forall i :: 0 <= i < |r| ==> r[i] == OldPairs(sec)[i].0
  {
    var pairs := OldPairs(sec);
    seq(|pairs|, i requires 0 <= i < |pairs| => pairs[i].0)
  }

  /** The new-record literals of the reassignments, in section order. */
  function NewRecordValues(sec: Section): (r: seq<string>)
    ensures |r| == |OldPairs(sec)|
    ensures forall i :: 0 <= i < |r| ==> r[i] == OldPairs(sec)[i].1
  {
    var pairs := OldPairs(sec);
    seq(|pairs|, i requires 0 <= i < |pairs| => pairs[i].1)
  }

  /** The old-record literals are exactly the option names other than `new`. */
  lemma OldRecordKeysMeaning(sec: Section)
    ensures forall k :: k in OldRecordKeys(sec) <==> k != NewKey && exists i :: 0 <= i < |sec| && sec[i].0 == k
  {
    var ks := OldRecordKeys(sec);
    var pairs := OldPairs(sec);
    forall k | k in ks ensures k != NewKey && exists i :: 0 <= i < |sec| && sec[i].0 == k {
      var j :| 0 <= j < |ks| && ks[j] == k;
      assert pairs[j] in pairs;
    }
    forall k | k != NewKey && (exists i :: 0 <= i < |sec| && sec[i].0 == k) ensures k in ks {
      var i :| 0 <= i < |sec| && sec[i].0 == k;
      assert sec[i] in sec;
      var j :| 0 <= j < |pairs| && pairs[j] == sec[i];
      assert ks[j] == k;
    }
  }

  /** The old-record literals follow the section's order: those of a
      concatenation are those of its first part, then those of the second. */
  lemma OldRecordKeysAppend(sec: Section, more: Section)
    ensures OldRecordKeys(sec + more) == OldRecordKeys(sec) + OldRecordKeys(more)
  {
    RemoveKeyAppend(sec, more, NewKey);
    var ks, ka, kb := OldRecordKeys(sec + more), OldRecordKeys(sec), OldRecordKeys(more);
    assert |ks| == |ka| + |kb|;
    forall i | 0 <= i < |ks| ensures ks[i] == (ka + kb)[i] {
      if i < |ka| {
        assert OldPairs(sec + more)[i] == OldPairs(sec)[i];
      } else {
        assert OldPairs(sec + more)[i] == OldPairs(more)[i - |ka|];
      }
    }
  }

  /** Every option name is used once (the configuration reader keeps one value
      per option). */
  predicate DistinctNames(sec: Section) {
    forall i, j :: 0 <= i < j < |sec| ==> sec[i].0 != sec[j].0
  }

  /** Once every option name is used once, looking an option up by its name
      finds that option's own value. */
  lemma LookupOfEntry(sec: Section, e: (string, string))
    requires DistinctNames(sec) && e in sec
    ensures Lookup(sec, e.0) == Some(e.1)
  {
    var m :| 0 <= m < |sec| && sec[m] == e;
    var v := Lookup(sec, e.0);
    var i :| FirstEntry(sec, i, e.0, v.value);
    assert !(i < m) && !(m < i);
  }

  /** Each new-record literal is the value stored under its old-record literal
      (`self.get(domain, old_record)`), once every option name is used once. */
  lemma NewValuesAreLookups(sec: Section)
    requires DistinctNames(sec)
    ensures |NewRecordValues(sec)| == |OldRecordKeys(sec)|
    ensures forall i :: 0 <= i < |OldRecordKeys(sec)| ==> Lookup(sec, OldRecordKeys(sec)[i]) == Some(NewRecordValues(sec)[i])
  {
    var ps := OldPairs(sec);
    forall i | 0 <= i < |OldRecordKeys(sec)| ensures Lookup(sec, OldRecordKeys(sec)[i]) == Some(NewRecordValues(sec)[i]) {
      assert ps[i] in ps;
      LookupOfEntry(sec, ps[i]);
    }
  }

  /** A list comprehension of `str2record`: every literal parsed in order, the
      first failure raised. */
  function ParseAll(lits: seq<string>): (r: Result<seq<Record>, Error>)
    ensures r.Ok? <==> forall i :: 0 <= i < |lits| ==> ParseRecord(lits[i]).Ok?
    ensures r.Ok? ==> |r.value| == |lits| && forall i :: 0 <= i < |lits| ==> ParseRecord(lits[i]) == Ok(r.value[i])
    decreases |lits|
  {
    if lits == [] then Ok([])
    else
      match ParseRecord(lits[0])
      case Err(e) => Err(e)
      case Ok(x) =>
        match ParseAll(lits[1..])
        case Err(e) => Err(e)
        case Ok(xs) => Ok([x] + xs)
  }

  /** Literal `i` is the first that does not parse, and it fails with `e`. */
  predicate FirstFailing(lits: seq<string>, i: int, e: Error) {
    0 <= i < |lits| && ParseRecord(lits[i]) == Err(e) && forall j :: 0 <= j < i ==> ParseRecord(lits[j]).Ok?
  }

  /** The error raised is that of the first literal that does not parse. */
  lemma {:induction false} ParseAllFirstError(lits: seq<string>)
    requires ParseAll(lits).Err?
    ensures exists i :: FirstFailing(lits, i, ParseAll(lits).error)
    decreases |lits|
  {
    if ParseRecord(lits[0]).Ok? {
      ParseAllFirstError(lits[1..]);
      var i :| FirstFailing(lits[1..], i, ParseAll(lits[1..]).error);
      assert FirstFailing(lits, i + 1, ParseAll(lits).error) by {
        forall j | 0 <= j < i + 1 ensures ParseRecord(lits[j]).Ok? {
          if j > 0 { assert lits[j] == lits[1..][j - 1]; }
        }
      }
    } else {
      assert FirstFailing(lits, 0, ParseAll(lits).error);
    }
  }

  /** `get_domain_old_records`: one record per option other than `new`, in
      section order, each parsed from the option's name. */
  function DomainOldRecords(sec: Section): (r: Result<seq<Record>, Error>)
    ensures r.Ok? <==> forall i :: 0 <= i < |OldPairs(sec)| ==> ParseRecord(OldPairs(sec)[i].0).Ok?
    ensures r.Ok? ==> |r.value| == |OldPairs(sec)| && forall i :: 0 <= i < |r.value| ==> ParseRecord(OldPairs(sec)[i].0) == Ok(r.value[i])
  {
    ParseAll(OldRecordKeys(sec))
  }

  /** `get_domain_new_records`: one record per option other than `new`, in
      section order, each parsed from the option's value. */
  function DomainNewRecords(sec: Section): (r: Result<seq<Record>, Error>)
    ensures r.Ok? <==> forall i :: 0 <= i < |OldPairs(sec)| ==> ParseRecord(OldPairs(sec)[i].1).Ok?
    ensures r.Ok? ==> |r.value| == |OldPairs(sec)| && forall i :: 0 <= i < |r.value| ==> ParseRecord(OldPairs(sec)[i].1) == Ok(r.value[i])
  {
    ParseAll(NewRecordValues(sec))
  }

  /** The literals of the `new` option: its comma-separated pieces, stripped. */
  function NewLiterals(v: string): (r: seq<string>)
    ensures |r| == multiset(v)[','] + 1
    ensures forall i :: 0 <= i < |r| ==> r[i] == Strip(SplitOn(v, ',')[i])
  {
    var pieces := SplitOn(v, ',');
    seq(|pieces|, i requires 0 <= i < |pieces| => Strip(pieces[i]))
  }

  /** Dropping `new` leaves the reassignments, and their order, as they were. */
  lemma {:induction false} RemoveNewKeepsPairs(sec: Section)
    ensures OldPairs(RemoveKey(sec, NewKey)) == OldPairs(sec)
    ensures Lookup(RemoveKey(sec, NewKey), NewKey).None?
    decreases |sec|
  {
    if sec != [] {
      RemoveNewKeepsPairs(sec[1..]);
      var rest := RemoveKey(sec[1..], NewKey);
      if sec[0].0 != NewKey {
        var r := [sec[0]] + rest;
        assert RemoveKey(sec, NewKey) == r;
        assert r[0] == sec[0] && r[1..] == rest;
        assert RemoveKey(r, NewKey) == [sec[0]] + RemoveKey(rest, NewKey);
      } else {
        assert RemoveKey(sec, NewKey) == [] + rest == rest;
      }
    }
  }
}
