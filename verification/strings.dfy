/**
 * The JavaScript string operations the core relies on: `trim`, taking the
 * first segment of `split`, the default `sort` order, and number formatting.
 * Characters are compared by code point; for the ASCII text the core sorts,
 * that is the UTF-16 code-unit order JavaScript uses.
 */
module Strings {

  /** The WhiteSpace and LineTerminator characters that `String.prototype.trim` strips. */
  predicate IsTrimmable(c: char) {
    || c == '\t' || c == '\n' || c == '\U{000B}' || c == '\U{000C}' || c == '\r'
    || c == ' ' || c == '\U{00A0}' || c == '\U{1680}'
    || ('\U{2000}' <= c <= '\U{200A}')
    || c == '\U{2028}' || c == '\U{2029}' || c == '\U{202F}' || c == '\U{205F}'
    || c == '\U{3000}' || c == '\U{FEFF}'
  }

  /** Drops the characters satisfying `ws` at the front of `s`. */
  function TrimStart(ws: char -> bool, s: string): (r: string)
    ensures |r| <= |s|
    ensures r == s[|s| - |r|..]
    ensures forall i :: 0 <= i < |s| - |r| ==> ws(s[i])
    ensures r == [] || !ws(r[0])
  {
    if s != [] && ws(s[0]) then
      var r := TrimStart(ws, s[1..]);
      assert s[1..][|s| - 1 - |r|..] == s[|s| - |r|..];
      r
    else s
  }

  /** Drops the characters satisfying `ws` at the back of `s`. */
  function TrimEnd(ws: char -> bool, s: string): (r: string)
    ensures |r| <= |s| && r == s[..|r|]
    ensures forall i :: |r| <= i < |s| ==> ws(s[i])
    ensures r == [] || !ws(r[|r| - 1])
  {
    if s != [] && ws(s[|s| - 1]) then TrimEnd(ws, s[..|s| - 1]) else s
  }

  /** Every character of `s` satisfies `ws`. */
  predicate All(ws: char -> bool, s: string) {
    forall i :: 0 <= i < |s| ==> ws(s[i])
  }

  /** `r` is the piece of `s` starting at `lo`, and everything of `s` around it satisfies `ws`. */
  predicate TrimmedFrom(ws: char -> bool, s: string, r: string, lo: int) {
    && 0 <= lo <= |s| - |r|
    && r == s[lo..lo + |r|]
    && All(ws, s[..lo])
    && All(ws, s[lo + |r|..])
  }

  /** `r` is a piece of `s` with only `ws` characters around it. */
  ghost predicate Trimmed(ws: char -> bool, s: string, r: string) {
    exists lo :: TrimmedFrom(ws, s, r, lo)
  }

  /** Neither the first nor the last character of `s` satisfies `ws`. */
  predicate Unpadded(ws: char -> bool, s: string) {
    s == [] || (!ws(s[0]) && !ws(s[|s| - 1]))
  }

  /** Trimming both ends: a contiguous piece of `s` with only `ws` characters around it and none at its ends. */
  function TrimBy(ws: char -> bool, s: string): (r: string)
    ensures Trimmed(ws, s, r)
    ensures Unpadded(ws, r)
  {
    var t := TrimStart(ws, s);
    var r := TrimEnd(ws, t);
    Located(ws, s, t, r);
    assert TrimmedFrom(ws, s, r, |s| - |t|);
    r
  }

  /** A suffix of `s` after `ws` characters, then a prefix of it before `ws` characters, is a trimmed piece of `s`. */
  lemma Located(ws: char -> bool, s: string, t: string, r: string)
    requires |t| <= |s| && t == s[|s| - |t|..]
    requires forall i :: 0 <= i < |s| - |t| ==> ws(s[i])
    requires |r| <= |t| && r == t[..|r|]
    requires forall i :: |r| <= i < |t| ==> ws(t[i])
    requires t == [] || !ws(t[0])
    requires r == [] || !ws(r[|r| - 1])
    ensures TrimmedFrom(ws, s, r, |s| - |t|)
    ensures Unpadded(ws, r)
  {
    var lo := |s| - |t|;
    assert r == s[lo..lo + |r|];
    var after := s[lo + |r|..];
    forall i | 0 <= i < |after|
      ensures ws(after[i])
    {
      assert after[i] == t[|r| + i];
    }
  }

  /** `s.trim()`: strips JavaScript whitespace from both ends. */
  function Trim(s: string): (r: string)
    ensures Trimmed(IsTrimmable, s, r)
    ensures Unpadded(IsTrimmable, r)
  {
    TrimBy(IsTrimmable, s)
  }

  /** Trimming twice is trimming once. */
  lemma TrimIdempotent(s: string)
    ensures Trim(Trim(s)) == Trim(s)
  {
    var r := Trim(s);
    if r != [] {
      assert TrimStart(IsTrimmable, r) == r;
      assert TrimEnd(IsTrimmable, r) == r;
    }
  }

  /** `s.split(sep)[0]`: everything before the first `sep`, or all of `s` when there is none. */
  function BeforeFirst(s: string, sep: char): (r: string)
    ensures r <= s
    ensures sep !in r
    ensures |r| < |s| ==> s[|r|] == sep
  {
    if s == [] || s[0] == sep then [] else [s[0]] + BeforeFirst(s[1..], sep)
  }

  /** `split` stops at the first separator: what follows it does not matter. */
  lemma {:induction false} BeforeFirstStops(a: string, sep: char, b: string)
    requires sep !in a
    ensures BeforeFirst(a + [sep] + b, sep) == a
  {
    if a != [] {
      assert (a + [sep] + b)[1..] == a[1..] + [sep] + b;
      BeforeFirstStops(a[1..], sep, b);
    }
  }

  /** A string with no separator is its own first segment. */
  lemma {:induction false} BeforeFirstWhole(a: string, sep: char)
    requires sep !in a
    ensures BeforeFirst(a, sep) == a
  {
    if a != [] {
      BeforeFirstWhole(a[1..], sep);
    }
  }

  lemma {:induction false} TrimStartPadded(ws: char -> bool, pre: string, rest: string)
    requires All(ws, pre)
    requires rest == [] || !ws(rest[0])
    ensures TrimStart(ws, pre + rest) == rest
  {
    if pre != [] {
      assert (pre + rest)[1..] == pre[1..] + rest;
      assert All(ws, pre[1..]) by {
        assert forall i :: 0 <= i < |pre[1..]| ==> pre[1..][i] == pre[i + 1];
      }
      TrimStartPadded(ws, pre[1..], rest);
    } else {
      assert pre + rest == rest;
    }
  }

  lemma {:induction false} TrimEndPadded(ws: char -> bool, rest: string, post: string)
    requires All(ws, post)
    requires rest == [] || !ws(rest[|rest| - 1])
    ensures TrimEnd(ws, rest + post) == rest
  {
    if post != [] {
      assert (rest + post)[..|rest + post| - 1] == rest + post[..|post| - 1];
      TrimEndPadded(ws, rest, post[..|post| - 1]);
    } else {
      assert rest + post == rest;
    }
  }

  /** Trimming removes exactly the surrounding whitespace: an unpadded core comes back unchanged. */
  lemma TrimPadded(pre: string, core: string, post: string)
    requires All(IsTrimmable, pre) && All(IsTrimmable, post) && Unpadded(IsTrimmable, core)
    ensures Trim(pre + core + post) == core
  {
    if core == [] {
      assert pre + core + post == pre + post;
      assert All(IsTrimmable, pre + post);
      TrimStartPadded(IsTrimmable, pre + post, []);
      assert pre + post + [] == pre + post;
    } else {
      assert pre + core + post == pre + (core + post);
      TrimStartPadded(IsTrimmable, pre, core + post);
      TrimEndPadded(IsTrimmable, core, post);
    }
  }

  /** Strict lexicographic order on strings, character by character: the order of JavaScript's default `sort`. */
  predicate Less(a: string, b: string)
    decreases |a|
  {
    if a == [] then b != []
    else if b == [] then false
    else if a[0] != b[0] then a[0] < b[0]
    else Less(a[1..], b[1..])
  }

  lemma {:induction false} LessIrreflexive(a: string)
    ensures !Less(a, a)
  {
    if a != [] {
      LessIrreflexive(a[1..]);
    }
  }

  lemma {:induction false} LessTransitive(a: string, b: string, c: string)
    requires Less(a, b) && Less(b, c)
    ensures Less(a, c)
    decreases |a|
  {
    if a != [] && b != [] && c != [] && a[0] == b[0] && b[0] == c[0] {
      LessTransitive(a[1..], b[1..], c[1..]);
    }
  }

  lemma {:induction false} LessTotal(a: string, b: string)
    requires a != b
    ensures Less(a, b) || Less(b, a)
    decreases |a|
  {
    if a != [] && b != [] && a[0] == b[0] {
      assert a == [a[0]] + a[1..] && b == [b[0]] + b[1..];
      LessTotal(a[1..], b[1..]);
    }
  }

  /** Sorted by `Less` with no element repeated. */
  predicate StrictlySorted(xs: seq<string>) {
    forall i, j :: 0 <= i < j < |xs| ==> Less(xs[i], xs[j])
  }

  /** Inserts `x` at its place in a strictly sorted list, unless it is already there. */
  function Insert(x: string, xs: seq<string>): (r: seq<string>)
    requires StrictlySorted(xs)
    ensures StrictlySorted(r)
    ensures forall y :: y in r <==> y == x || y in xs
  {
    if xs == [] then [x]
    else if x == xs[0] then xs
    else if Less(x, xs[0]) then
      assert forall j :: 0 <= j < |xs| ==> Less(x, xs[j]) by {
        forall j | 0 <= j < |xs| ensures Less(x, xs[j]) {
          if j > 0 {
            LessTransitive(x, xs[0], xs[j]);
          }
        }
      }
      [x] + xs
    else
      LessTotal(x, xs[0]);
      var rest := Insert(x, xs[1..]);
      assert forall y :: y in rest ==> Less(xs[0], y);
      [xs[0]] + rest
  }

  /**
   * `Array.from(new Set(xs)).sort()`: the distinct elements of `xs` in
   * increasing order.
   */
  function SortedDistinct(xs: seq<string>): (r: seq<string>)
    ensures StrictlySorted(r)
    ensures forall y :: y in r <==> y in xs
  {
    if xs == [] then [] else Insert(xs[0], SortedDistinct(xs[1..]))
  }

  /**
   * A strictly sorted list is determined by its elements, so the order in
   * which the distinct values were collected before sorting is irrelevant.
   */
  lemma {:induction false} StrictlySortedUnique(a: seq<string>, b: seq<string>)
    requires StrictlySorted(a) && StrictlySorted(b)
    requires forall y :: y in a <==> y in b
    ensures a == b
  {
    assert a != [] ==> a[0] in a;
    assert b != [] ==> b[0] in b;
    if a != [] && b != [] {
      assert b[0] in a && a[0] in b;
      if a[0] != b[0] {
        var i :| 0 <= i < |a| && a[i] == b[0];
        var j :| 0 <= j < |b| && b[j] == a[0];
        assert Less(a[0], b[0]);
        assert Less(b[0], a[0]);
        LessTransitive(a[0], b[0], a[0]);
        LessIrreflexive(a[0]);
      }
      forall y ensures y in a[1..] <==> y in b[1..] {
        if y in a[1..] {
          var i :| 1 <= i < |a| && a[i] == y;
          LessIrreflexive(a[0]);
          assert y in a && y in b;
          var j :| 0 <= j < |b| && b[j] == y;
          assert j != 0;
          assert b[1..][j - 1] == y;
        }
        if y in b[1..] {
          var j :| 1 <= j < |b| && b[j] == y;
          LessIrreflexive(b[0]);
          assert y in b && y in a;
          var i :| 0 <= i < |a| && a[i] == y;
          assert i != 0;
          assert a[1..][i - 1] == y;
        }
      }
      StrictlySortedUnique(a[1..], b[1..]);
      assert a == [a[0]] + a[1..] && b == [b[0]] + b[1..];
    }
  }

  /** Decimal digits of `n`, as `String(n)` writes a non-negative integer: no sign and no leading zero. */
  function NatToString(n: nat): (r: string)
    ensures |r| >= 1
    ensures forall i :: 0 <= i < |r| ==> '0' <= r[i] <= '9'
    ensures r[0] == '0' <==> n == 0
  {
    if n < 10 then [Digit(n)] else NatToString(n / 10) + [Digit(n % 10)]
  }

  function Digit(d: nat): (c: char)
    requires d < 10
    ensures '0' <= c <= '9'
    ensures c as int - '0' as int == d
  {
    ['0', '1', '2', '3', '4', '5', '6', '7', '8', '9'][d]
  }

  /** The number a string of decimal digits spells, most significant digit first. */
  function DigitsValue(s: string): nat
    requires forall i :: 0 <= i < |s| ==> '0' <= s[i] <= '9'
  {
    if s == [] then 0 else DigitsValue(s[..|s| - 1]) * 10 + (s[|s| - 1] as int - '0' as int)
  }

  /** The digits `NatToString` writes spell `n` back. */
  lemma {:induction false} NatToStringValue(n: nat)
    ensures DigitsValue(NatToString(n)) == n
  {
    var r := NatToString(n);
    if n >= 10 {
      assert r[..|r| - 1] == NatToString(n / 10);
      NatToStringValue(n / 10);
    }
  }
}
