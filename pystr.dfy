/** The Python string operations the record parser relies on: `split()` on
    whitespace, `split(sep)` on one character, `strip()` and `upper()`. */
module PyStr {

  /** ASCII whitespace: space, tab, line feed, vertical tab, form feed, carriage return. */
  predicate IsSpace(c: char) {
    c == ' ' || '\t' <= c <= '\r'
  }

  predicate NoSpace(s: string) {
    forall i :: 0 <= i < |s| ==> !IsSpace(s[i])
  }

  predicate AllSpace(s: string) {
    forall i :: 0 <= i < |s| ==> IsSpace(s[i])
  }

  // ---------------------------------------------------------------------------
  // s.split()

  /** The longest prefix of `s` that holds no whitespace. */
  function Word(s: string): (w: string)
    ensures |w| <= |s| && w == s[..|w|] && NoSpace(w)
    ensures |w| < |s| ==> IsSpace(s[|w|])
    decreases |s|
  {
    if s == [] || IsSpace(s[0]) then [] else [s[0]] + Word(s[1..])
  }

  /** Python's `s.split()`: the maximal runs of non-whitespace characters, in order. */
  function Tokens(s: string): (r: seq<string>)
    ensures forall i :: 0 <= i < |r| ==> r[i] != [] && NoSpace(r[i])
    decreases |s|
  {
    if s == [] then []
    else if IsSpace(s[0]) then Tokens(s[1..])
    else
      var w := Word(s);
      [w] + Tokens(s[|w|..])
  }

  /** Python's `' '.join(ts)`. */
  function Join(ts: seq<string>): string
    decreases |ts|
  {
    if ts == [] then [] else if |ts| == 1 then ts[0] else ts[0] + [' '] + Join(ts[1..])
  }

  lemma {:induction false} WordOfPrefix(t: string, rest: string)
    requires NoSpace(t)
    requires rest == [] || IsSpace(rest[0])
    ensures Word(t + rest) == t
    decreases |t|
  {
    if t == [] {
    } else {
      assert (t + rest)[1..] == t[1..] + rest;
      WordOfPrefix(t[1..], rest);
    }
  }

  lemma {:induction false} TokensOfAllSpace(s: string)
    requires AllSpace(s)
    ensures Tokens(s) == []
    decreases |s|
  {
    if s != [] {
      TokensOfAllSpace(s[1..]);
    }
  }

  /** Splitting a space-joined list of words gives the words back. */
  lemma {:induction false} TokensOfJoin(ts: seq<string>)
    requires forall i :: 0 <= i < |ts| ==> ts[i] != [] && NoSpace(ts[i])
    ensures Tokens(Join(ts)) == ts
    decreases |ts|
  {
    if ts == [] {
    } else if |ts| == 1 {
      var t := ts[0];
      WordOfPrefix(t, []);
      assert t + [] == t;
      assert t[|t|..] == [];
    } else {
      var t, j := ts[0], Join(ts[1..]);
      var s := t + [' '] + j;
      assert s == t + ([' '] + j);
      WordOfPrefix(t, [' '] + j);
      assert s[|t|..] == [' '] + j;
      assert ([' '] + j)[1..] == j;
      TokensOfJoin(ts[1..]);
    }
  }

  // ---------------------------------------------------------------------------
  // s.strip()

  /** The first position at or after `i` that holds no whitespace. */
  function SkipLeft(s: string, i: nat): (k: nat)
    requires i <= |s|
    ensures i <= k <= |s|
    ensures forall m :: i <= m < k ==> IsSpace(s[m])
    ensures k == |s| || !IsSpace(s[k])
    decreases |s| - i
  {
    if i < |s| && IsSpace(s[i]) then SkipLeft(s, i + 1) else i
  }

  /** The end of `s[lo..j]` once its trailing whitespace is dropped. */
  function SkipRight(s: string, lo: nat, j: nat): (k: nat)
    requires lo <= j <= |s|
    ensures lo <= k <= j
    ensures forall m :: k <= m < j ==> IsSpace(s[m])
    ensures k == lo || !IsSpace(s[k - 1])
    decreases j - lo
  {
    if lo < j && IsSpace(s[j - 1]) then SkipRight(s, lo, j - 1) else j
  }

  /** Python's `s.strip()`: `s` without its leading and trailing whitespace. */
  function Strip(s: string): (r: string)
    ensures r == [] || (!IsSpace(r[0]) && !IsSpace(r[|r| - 1]))
    ensures exists i, j :: 0 <= i <= j <= |s| && r == s[i..j] && AllSpace(s[..i]) && AllSpace(s[j..])
  {
    var i := SkipLeft(s, 0);
    var j := SkipRight(s, i, |s|);
    assert AllSpace(s[..i]);
    assert AllSpace(s[j..]);
    s[i..j]
  }

  lemma {:induction false} WordOfAppend(s: string, t: string)
    requires t == [] || IsSpace(t[0])
    ensures Word(s + t) == Word(s)
    decreases |s|
  {
    if s == [] {
      assert s + t == t;
    } else if !IsSpace(s[0]) {
      assert (s + t)[1..] == s[1..] + t;
      WordOfAppend(s[1..], t);
    }
  }

  lemma {:induction false} TokensOfTrailingSpace(s: string, sp: string)
    requires AllSpace(sp)
    ensures Tokens(s + sp) == Tokens(s)
    decreases |s|
  {
    if s == [] {
      assert s + sp == sp;
      TokensOfAllSpace(sp);
    } else if IsSpace(s[0]) {
      assert (s + sp)[1..] == s[1..] + sp;
      TokensOfTrailingSpace(s[1..], sp);
    } else {
      WordOfAppend(s, sp);
      var w := Word(s);
      assert (s + sp)[|w|..] == s[|w|..] + sp;
      TokensOfTrailingSpace(s[|w|..], sp);
    }
  }

  lemma {:induction false} TokensOfLeadingSpace(sp: string, s: string)
    requires AllSpace(sp)
    ensures Tokens(sp + s) == Tokens(s)
    decreases |sp|
  {
    if sp != [] {
      assert (sp + s)[1..] == sp[1..] + s;
      TokensOfLeadingSpace(sp[1..], s);
    } else {
      assert sp + s == s;
    }
  }

  /** `split()` skips leading whitespace, then takes a maximal run of
      non-whitespace as its next token. With `TokensOfAllSpace` this fixes
      `Tokens` on every string. */
  lemma TokensCons(sp: string, w: string, s: string)
    requires AllSpace(sp) && w != [] && NoSpace(w)
    requires s == [] || IsSpace(s[0])
    ensures Tokens(sp + w + s) == [w] + Tokens(s)
  {
    assert sp + w + s == sp + (w + s);
    TokensOfLeadingSpace(sp, w + s);
    WordOfPrefix(w, s);
    assert (w + s)[0] == w[0];
    assert (w + s)[|w|..] == s;
  }

  /** Stripping a literal before splitting it changes nothing. */
  lemma StripKeepsTokens(s: string)
    ensures Tokens(Strip(s)) == Tokens(s)
  {
    var i, j :| 0 <= i <= j <= |s| && Strip(s) == s[i..j] && AllSpace(s[..i]) && AllSpace(s[j..]);
    assert s == s[..i] + (s[i..j] + s[j..]);
    TokensOfLeadingSpace(s[..i], s[i..j] + s[j..]);
    TokensOfTrailingSpace(s[i..j], s[j..]);
  }

  // ---------------------------------------------------------------------------
  // s.split(c)

  /** Python's `s.split(c)`: the pieces between the occurrences of `c`; there is
      always one piece more than there are occurrences. */
  function SplitOn(s: string, c: char): (r: seq<string>)
    ensures |r| == multiset(s)[c] + 1
    ensures forall i :: 0 <= i < |r| ==> c !in r[i]
    decreases |s|
  {
    if s == [] then [[]]
    else
      assert s == [s[0]] + s[1..];
      var rest := SplitOn(s[1..], c);
      if s[0] == c then [[]] + rest else [[s[0]] + rest[0]] + rest[1..]
  }

  /** Python's `c.join(ps)`. */
  function JoinOn(ps: seq<string>, c: char): string
    requires |ps| >= 1
    decreases |ps|
  {
    if |ps| == 1 then ps[0] else ps[0] + [c] + JoinOn(ps[1..], c)
  }

  /** Joining the pieces of a split with the separator gives the string back. */
  lemma {:induction false} JoinOnSplitOn(s: string, c: char)
    ensures JoinOn(SplitOn(s, c), c) == s
    decreases |s|
  {
    if s != [] {
      JoinOnSplitOn(s[1..], c);
      if s[0] == c {
        JoinOnSplitOnSeparator(s, c);
      } else {
        JoinOnSplitOnOther(s, c);
      }
    }
  }

  /** The step of `JoinOnSplitOn` for a string that starts with the separator. */
  lemma JoinOnSplitOnSeparator(s: string, c: char)
    requires s != [] && s[0] == c && JoinOn(SplitOn(s[1..], c), c) == s[1..]
    ensures JoinOn(SplitOn(s, c), c) == s
  {
    var rest := SplitOn(s[1..], c);
    assert SplitOn(s, c) == [[]] + rest;
    JoinOnCons([], rest, c);
    var empty: string := [];
    assert empty + [c] + s[1..] == s;
  }

  /** The step of `JoinOnSplitOn` for a string that starts with another character. */
  lemma JoinOnSplitOnOther(s: string, c: char)
    requires s != [] && s[0] != c && JoinOn(SplitOn(s[1..], c), c) == s[1..]
    ensures JoinOn(SplitOn(s, c), c) == s
  {
    var rest := SplitOn(s[1..], c);
    assert SplitOn(s, c) == [[s[0]] + rest[0]] + rest[1..];
    JoinOnExtendHead(s[0], rest, c);
    assert s == [s[0]] + s[1..];
  }

  lemma JoinOnCons(p: string, ps: seq<string>, c: char)
    requires |ps| >= 1
    ensures JoinOn([p] + ps, c) == p + [c] + JoinOn(ps, c)
  {
    assert ([p] + ps)[1..] == ps;
  }

  lemma JoinOnExtendHead(x: char, ps: seq<string>, c: char)
    requires |ps| >= 1
    ensures JoinOn([[x] + ps[0]] + ps[1..], c) == [x] + JoinOn(ps, c)
  {
    var r := [[x] + ps[0]] + ps[1..];
    if |ps| > 1 {
      assert r[1..] == ps[1..];
    }
  }

  // ---------------------------------------------------------------------------
  // s.upper()

  function UpperChar(c: char): char {
    if 'a' <= c <= 'z' then (c as int - 32) as char else c
  }

  /** Python's `s.upper()` on ASCII letters. */
  function Upper(s: string): (r: string)
    ensures |r| == |s|
    ensures forall i :: 0 <= i < |r| ==> !('a' <= r[i] <= 'z')
    ensures forall i :: 0 <= i < |s| && !('a' <= s[i] <= 'z') ==> r[i] == s[i]
    ensures forall i :: 0 <= i < |s| && 'a' <= s[i] <= 'z' ==> r[i] as int == s[i] as int - 32
  {
    seq(|s|, i requires 0 <= i < |s| => UpperChar(s[i]))
  }
}
