/** The record-literal parser (`Config.str2record`).

    A literal is `sub_domain record_type record_line value [attr:value ...]`,
    split on whitespace. Token 0 is the sub-domain, token 1 the record type
    (upper-cased), token 2 the line, token 3 the value; every later token must
    split on `:` into exactly two parts and sets that attribute. The arity test
    rejects only literals of fewer than THREE tokens, so a three-token literal
    parses to a record without a `value`. Attributes are written in token order, so
    a later token overwrites what an earlier one set (an extra `value:x`
    replaces token 3). */
module Records {
  import opened Wrappers
  import opened Types
  import opened PyStr

  const SubDomain := "sub_domain"
  const RecordType := "record_type"
  const RecordLine := "record_line"
  const Value := "value"

  /** The three attributes every parsed record has. */
  predicate HasCoreKeys(r: Record) {
    SubDomain in r && RecordType in r && RecordLine in r
  }

  /** An extra token is well formed when it splits on `:` into exactly two parts. */
  predicate IsAttrPair(tok: string) {
    |SplitOn(tok, ':')| == 2
  }

  predicate ExtrasWellFormed(toks: seq<string>) {
    forall i :: 4 <= i < |toks| ==> IsAttrPair(toks[i])
  }

  /** The attribute name and value that token number `i` of a literal writes. */
  function Entry(i: nat, tok: string): (string, string)
    requires i < 4 || IsAttrPair(tok)
  {
    if i == 0 then (SubDomain, tok)
    else if i == 1 then (RecordType, Upper(tok))
    else if i == 2 then (RecordLine, tok)
    else if i == 3 then (Value, tok)
    else
      var parts := SplitOn(tok, ':');
      (parts[0], parts[1])
  }

  /** The record the tokens write, one entry after the other. */
  function Assemble(toks: seq<string>): Record
    requires ExtrasWellFormed(toks)
    decreases |toks|
  {
    if toks == [] then map[]
    else
      var n := |toks| - 1;
      var e := Entry(n, toks[n]);
      Assemble(Prefix(toks))[e.0 := e.1]
  }

  /** One more token writes one more entry. */
  lemma AssembleSnoc(toks: seq<string>, i: nat)
    requires i < |toks| && ExtrasWellFormed(toks[..i + 1])
    ensures ExtrasWellFormed(toks[..i])
    ensures Assemble(toks[..i + 1]) == Assemble(toks[..i])[Entry(i, toks[i]).0 := Entry(i, toks[i]).1]
  {
    assert Prefix(toks[..i + 1]) == toks[..i];
  }

  /** All tokens but the last. */
  function Prefix(toks: seq<string>): (p: seq<string>)
    requires ExtrasWellFormed(toks) && toks != []
    ensures |p| == |toks| - 1 && ExtrasWellFormed(p)
    ensures forall i :: 0 <= i < |p| ==> p[i] == toks[i]
  {
    toks[..|toks| - 1]
  }

  /** Every token writes its attribute. */
  lemma {:induction false} AssembleHasEntry(toks: seq<string>, i: nat)
    requires ExtrasWellFormed(toks) && i < |toks|
    ensures Entry(i, toks[i]).0 in Assemble(toks)
    decreases |toks|
  {
    if i < |toks| - 1 {
      AssembleHasEntry(Prefix(toks), i);
    }
  }

  /** Only the tokens' attributes are written. */
  lemma {:induction false} AssembleOnlyEntries(toks: seq<string>, k: string)
    requires ExtrasWellFormed(toks) && k in Assemble(toks)
    ensures exists i :: 0 <= i < |toks| && Entry(i, toks[i]).0 == k
    decreases |toks|
  {
    var n := |toks| - 1;
    if Entry(n, toks[n]).0 != k {
      AssembleOnlyEntries(Prefix(toks), k);
      var i :| 0 <= i < n && Entry(i, Prefix(toks)[i]).0 == k;
      assert Entry(i, toks[i]).0 == k;
    }
  }

  /** `str2record` on the whitespace tokens of a literal. */
  function ParseTokens(toks: seq<string>): (r: Result<Record, Error>)
    ensures r.Ok? ==> HasCoreKeys(r.value)
  {
    if |toks| < 3 then Err(RecordTooShort)
    else if exists i :: 4 <= i < |toks| && !IsAttrPair(toks[i]) then Err(MalformedAttribute)
    else
      AssembleHasEntry(toks, 0);
      AssembleHasEntry(toks, 1);
      AssembleHasEntry(toks, 2);
      Ok(Assemble(toks))
  }

  /** `str2record`: parse one record literal. */
  function ParseRecord(s: string): (r: Result<Record, Error>)
    ensures r.Ok? ==> HasCoreKeys(r.value)
  {
    ParseTokens(Tokens(s))
  }

  /** `str2record` as the source runs it: one pass over the tokens, writing into
      a map and giving up at the first malformed extra token. */
  method StrToRecord(s: string) returns (res: Result<Record, Error>)
    ensures res == ParseRecord(s)
  {
    var toks := Tokens(s);
    if |toks| < 3 {
      return Err(RecordTooShort);
    }
    var record: Record := map[];
    for index := 0 to |toks|
      invariant ExtrasWellFormed(toks[..index])
      invariant record == Assemble(toks[..index])
    {
      var attr := toks[index];
      assert toks[..index + 1][..index] == toks[..index];
      if index == 0 {
        record := record[SubDomain := attr];
      } else if index == 1 {
        record := record[RecordType := Upper(attr)];
      } else if index == 2 {
        record := record[RecordLine := attr];
      } else if index == 3 {
        record := record[Value := attr];
      } else {
        var parts := SplitOn(attr, ':');
        if |parts| != 2 {
          return Err(MalformedAttribute);
        }
        record := record[parts[0] := parts[1]];
      }
      AssembleSnoc(toks, index);
    }
    assert toks[..|toks|] == toks;
    return Ok(record);
  }

  // ---------------------------------------------------------------------------
  // What a parsed record holds

  /** No extra token of `toks` names attribute `k`. */
  predicate NotOverridden(toks: seq<string>, k: string)
    requires ExtrasWellFormed(toks)
  {
    forall j :: 4 <= j < |toks| ==> SplitOn(toks[j], ':')[0] != k
  }

  /** The last token that writes an attribute decides its value. */
  lemma {:induction false} AssembleLastWrite(toks: seq<string>, i: nat)
    requires ExtrasWellFormed(toks)
    requires i < |toks|
    requires forall j :: i < j < |toks| ==> Entry(j, toks[j]).0 != Entry(i, toks[i]).0
    ensures Entry(i, toks[i]).0 in Assemble(toks)
    ensures Assemble(toks)[Entry(i, toks[i]).0] == Entry(i, toks[i]).1
    decreases |toks|
  {
    AssembleHasEntry(toks, i);
    if i < |toks| - 1 {
      AssembleLastWrite(Prefix(toks), i);
    }
  }

  /** A literal fails to parse exactly when it has fewer than three tokens or
      one of its extra tokens does not hold exactly one `:`. */
  lemma ParseRecordFails(s: string)
    ensures var t := Tokens(s);
      ParseRecord(s).Err? <==>
        (|t| < 3 || exists i :: 4 <= i < |t| && multiset(t[i])[':'] != 1)
  {
  }

  /** A parsed record has `value` exactly when the literal has at least four tokens. */
  lemma ParsedValuePresence(t: seq<string>)
    requires ParseTokens(t).Ok?
    ensures |t| >= 3 && (Value in ParseTokens(t).value <==> |t| >= 4)
  {
    var r := ParseTokens(t).value;
    if |t| == 3 {
      if Value in r {
        AssembleOnlyEntries(t, Value);
      }
    } else {
      AssembleHasEntry(t, 3);
    }
  }

  /** Tokens 0 to 3 give the sub-domain, the upper-cased type, the line and the
      value, unless an extra token rewrites that attribute. */
  lemma ParsedCoreFields(t: seq<string>)
    requires ParseTokens(t).Ok?
    ensures ExtrasWellFormed(t)
    ensures var r := ParseTokens(t).value;
      && (NotOverridden(t, SubDomain) ==> r[SubDomain] == t[0])
      && (NotOverridden(t, RecordType) ==> r[RecordType] == Upper(t[1]))
      && (NotOverridden(t, RecordLine) ==> r[RecordLine] == t[2])
      && (|t| >= 4 && NotOverridden(t, Value) ==> Value in r && r[Value] == t[3])
  {
    if NotOverridden(t, SubDomain) { AssembleLastWrite(t, 0); }
    if NotOverridden(t, RecordType) { AssembleLastWrite(t, 1); }
    if NotOverridden(t, RecordLine) { AssembleLastWrite(t, 2); }
    if |t| >= 4 && NotOverridden(t, Value) { AssembleLastWrite(t, 3); }
  }

  /** Each extra `attr:value` token sets `attr` to `value`, unless a later token
      names the same attribute. */
  lemma ParsedExtras(t: seq<string>, j: nat)
    requires ParseTokens(t).Ok?
    requires 4 <= j < |t|
    requires forall m :: j < m < |t| ==> Entry(m, t[m]).0 != SplitOn(t[j], ':')[0]
    ensures var r := ParseTokens(t).value; var kv := SplitOn(t[j], ':');
      |kv| == 2 && kv[0] in r && r[kv[0]] == kv[1]
  {
    AssembleLastWrite(t, j);
  }

  /** A parsed record has no attribute other than the four core ones and the
      names of its extra tokens. */
  lemma ParsedKeysOnly(t: seq<string>, k: string)
    requires ParseTokens(t).Ok?
    requires k in ParseTokens(t).value
    ensures k in {SubDomain, RecordType, RecordLine, Value} || exists j :: 4 <= j < |t| && SplitOn(t[j], ':')[0] == k
  {
    AssembleOnlyEntries(t, k);
    var i :| 0 <= i < |t| && Entry(i, t[i]).0 == k;
    if i >= 4 {
      assert SplitOn(t[i], ':')[0] == k;
    }
  }

  /** A three-token literal parses, and the record it gives has no `value`. */
  lemma ThreeTokenLiteral(s: string)
    requires |Tokens(s)| == 3
    ensures ParseRecord(s).Ok? && Value !in ParseRecord(s).value
  {
    ParsedValuePresence(Tokens(s));
  }
}
