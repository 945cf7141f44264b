/** String operations the relay borrows from JavaScript: `includes`,
    `replace` with a global one-character pattern, `join`, `trim`, and the
    splitting and counting needed to state what they produce. */
module Text {

  /** `p` occurs in `s` starting at index `i`. */
  ghost predicate OccursAt(p: string, s: string, i: int)
  {
    0 <= i && i + |p| <= |s| && s[i..i + |p|] == p
  }

  /** `p` is a contiguous, case-sensitive substring of `s`. */
  ghost predicate Occurs(p: string, s: string)
  {
    exists i :: OccursAt(p, s, i)
  }

  /** Scans `s` for `p` from index `i` onwards. */
  function IncludesFrom(s: string, p: string, i: nat): (b: bool)
    ensures b <==> exists j :: i <= j && OccursAt(p, s, j)
    decreases |s| - i
  {
    if i + |p| > |s| then false
    else if s[i..i + |p|] == p then assert OccursAt(p, s, i); true
    else IncludesFrom(s, p, i + 1)
  }

  /** `s.includes(p)`. */
  function Includes(s: string, p: string): (b: bool)
    ensures b <==> Occurs(p, s)
  {
    IncludesFrom(s, p, 0)
  }

  /** A substring of `s` stays a substring when text is added on either side. */
  lemma OccursInContext(p: string, a: string, s: string, b: string)
    requires Occurs(p, s)
    ensures Occurs(p, a + s + b)
  {
    var i :| OccursAt(p, s, i);
    assert (a + s + b)[|a| + i..|a| + i + |p|] == s[i..i + |p|];
    assert OccursAt(p, a + s + b, |a| + i);
  }

  /** A string cannot occur where one of its characters is missing. */
  lemma AbsentCharBlocksOccurrence(p: string, s: string, k: nat)
    requires k < |p| && p[k] !in s
    ensures !Occurs(p, s)
  {
  }

  /** Number of occurrences of `c` in `s`. */
  function Count(c: char, s: string): (n: nat)
    ensures n <= |s|
    ensures n == 0 <==> c !in s
  {
    if |s| == 0 then 0
    else (if s[0] == c then 1 else 0) + Count(c, s[1..])
  }

  lemma {:induction false} CountConcat(c: char, a: string, b: string)
    ensures Count(c, a + b) == Count(c, a) + Count(c, b)
    decreases |a|
  {
    if |a| == 0 {
      assert a + b == b;
    } else {
      assert (a + b)[1..] == a[1..] + b;
      CountConcat(c, a[1..], b);
    }
  }

  /** `s.replace(/x/g, y)` for one-character `x` and `y`: every `from`
      becomes `to` and every other character is kept in place. */
  function ReplaceChar(s: string, from: char, to: char): (r: string)
    ensures |r| == |s|
    ensures forall i :: 0 <= i < |s| && s[i] == from ==> r[i] == to
    ensures forall i :: 0 <= i < |s| && s[i] != from ==> r[i] == s[i]
  {
    if |s| == 0 then ""
    else [if s[0] == from then to else s[0]] + ReplaceChar(s[1..], from, to)
  }

  /** After replacing, `from` is gone (when it is replaced by something else). */
  lemma ReplaceCharRemoves(s: string, from: char, to: char)
    requires from != to
    ensures from !in ReplaceChar(s, from, to)
  {
    var r := ReplaceChar(s, from, to);
    forall i | 0 <= i < |r|
      ensures r[i] != from
    {
      if s[i] == from { assert r[i] == to; } else { assert r[i] == s[i]; }
    }
  }

  /** Replacing is the identity on strings that do not hold `from`, so a
      second replacement changes nothing. */
  lemma ReplaceCharIdempotent(s: string, from: char, to: char)
    requires from != to
    ensures ReplaceChar(ReplaceChar(s, from, to), from, to) == ReplaceChar(s, from, to)
  {
    var r := ReplaceChar(s, from, to);
    ReplaceCharRemoves(s, from, to);
    var rr := ReplaceChar(r, from, to);
    forall i | 0 <= i < |r|
      ensures rr[i] == r[i]
    {
      assert r[i] != from;
    }
  }

  /** Length of the longest prefix of `s` that does not hold `c`. */
  function Span(s: string, c: char): (n: nat)
    ensures n <= |s|
    ensures c !in s[..n]
    ensures n < |s| ==> s[n] == c
  {
    if |s| == 0 || s[0] == c then 0
    else
      var n := 1 + Span(s[1..], c);
      assert s[..n] == [s[0]] + s[1..][..n - 1];
      n
  }

  /** The first `c` after a `c`-free prefix is found right after that prefix. */
  lemma SpanAfterFreePrefix(a: string, c: char, b: string)
    requires c !in a
    ensures Span(a + [c] + b, c) == |a|
  {
    var s := a + [c] + b;
    assert s[|a|] == c;
    assert forall j :: 0 <= j < |a| ==> s[j] == a[j];
  }

  /** The total length of a list of strings. */
  function TotalLength(xs: seq<string>): (n: nat)
  {
    if |xs| == 0 then 0 else |xs[0]| + TotalLength(xs[1..])
  }

  /** `xs.join(sep)`. */
  function Join(xs: seq<string>, sep: string): (r: string)
    ensures |xs| == 0 ==> r == ""
    ensures |xs| == 1 ==> r == xs[0]
    ensures |xs| >= 1 ==> |r| == TotalLength(xs) + (|xs| - 1) * |sep|
    ensures |xs| >= 1 ==> r[..|xs[0]|] == xs[0]
  {
    if |xs| == 0 then ""
    else if |xs| == 1 then xs[0]
    else xs[0] + sep + Join(xs[1..], sep)
  }

  /** Joining a part in front of at least one other part. */
  lemma JoinCons(x: string, xs: seq<string>, sep: string)
    requires |xs| >= 1
    ensures Join([x] + xs, sep) == x + sep + Join(xs, sep)
  {
    assert ([x] + xs)[1..] == xs;
  }

  /** Splits `s` at every `c`, the inverse of joining with `[c]`. */
  function Split(s: string, c: char): (r: seq<string>)
    ensures |r| >= 1
    ensures forall k :: 0 <= k < |r| ==> c !in r[k]
    decreases |s|
  {
    var n := Span(s, c);
    if n == |s| then [s]
    else [s[..n]] + Split(s[n + 1..], c)
  }

  /** A `c`-free prefix followed by `c` splits off as the first part. */
  lemma SplitAfterFreePrefix(a: string, c: char, b: string)
    requires c !in a
    ensures Split(a + [c] + b, c) == [a] + Split(b, c)
  {
    var s := a + [c] + b;
    SpanAfterFreePrefix(a, c, b);
    assert s[..|a|] == a;
    assert s[|a| + 1..] == b;
  }

  /** Joining with `c` and splitting at `c` gives back the parts when no
      part holds `c`. */
  lemma {:induction false} SplitJoin(xs: seq<string>, c: char)
    requires |xs| >= 1
    requires forall k :: 0 <= k < |xs| ==> c !in xs[k]
    ensures Split(Join(xs, [c]), c) == xs
    decreases |xs|
  {
    if |xs| == 1 {
      assert Span(xs[0], c) == |xs[0]|;
    } else {
      var rest := Join(xs[1..], [c]);
      assert Join(xs, [c]) == xs[0] + [c] + rest;
      SplitAfterFreePrefix(xs[0], c, rest);
      SplitJoin(xs[1..], c);
      assert [xs[0]] + xs[1..] == xs;
    }
  }

  /** Splitting at `c` and joining with `c` gives back the string. */
  lemma {:induction false} JoinSplit(s: string, c: char)
    ensures Join(Split(s, c), [c]) == s
    decreases |s|
  {
    var n := Span(s, c);
    if n < |s| {
      var rest := s[n + 1..];
      var tail := Split(rest, c);
      assert Split(s, c) == [s[..n]] + tail;
      JoinCons(s[..n], tail, [c]);
      JoinSplit(rest, c);
      assert s == s[..n] + [c] + rest;
    }
  }

  /** The characters JavaScript's `String.prototype.trim` removes: the
      WhiteSpace and LineTerminator code points of ECMAScript (section 12.2
      and 12.3 of ECMA-262), including the Unicode category Zs. */
  predicate IsJsSpace(c: char)
  {
    || c == '\t' || c == '\U{000B}' || c == '\U{000C}' || c == ' '
    || c == '\U{00A0}' || c == '\U{FEFF}' || c == '\U{1680}'
    || ('\U{2000}' <= c <= '\U{200A}')
    || c == '\U{202F}' || c == '\U{205F}' || c == '\U{3000}'
    || c == '\n' || c == '\r' || c == '\U{2028}' || c == '\U{2029}'
  }

  /** Every character of `s` is one `trim` removes. */
  ghost predicate IsBlank(s: string)
  {
    forall i :: 0 <= i < |s| ==> IsJsSpace(s[i])
  }

  /** `s.trimStart()`. */
  function TrimStart(s: string): (r: string)
    ensures |r| <= |s| && r == s[|s| - |r|..]
    ensures forall i :: 0 <= i < |s| - |r| ==> IsJsSpace(s[i])
    ensures r != "" ==> !IsJsSpace(r[0])
  {
    if |s| > 0 && IsJsSpace(s[0]) then TrimStart(s[1..]) else s
  }

  /** `s.trimEnd()`. */
  function TrimEnd(s: string): (r: string)
    ensures |r| <= |s| && r == s[..|r|]
    ensures forall i :: |r| <= i < |s| ==> IsJsSpace(s[i])
    ensures r != "" ==> !IsJsSpace(r[|r| - 1])
  {
    if |s| > 0 && IsJsSpace(s[|s| - 1]) then TrimEnd(s[..|s| - 1]) else s
  }

  /** Trimming both ends leaves nothing exactly when every character of
      `s` is white space. */
  lemma TrimBothEmptyIffBlank(s: string)
    ensures TrimEnd(TrimStart(s)) == "" <==> IsBlank(s)
  {
    var t := TrimStart(s);
    if t != "" {
      assert t[0] == s[|s| - |t|];
    }
  }

  /** `s.trim()`: empty exactly when `s` is blank. */
  function Trim(s: string): (r: string)
    ensures r == "" <==> IsBlank(s)
  {
    TrimBothEmptyIffBlank(s);
    TrimEnd(TrimStart(s))
  }
}
