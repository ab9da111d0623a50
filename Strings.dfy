/** Text helpers shared by the resolution modules: splitting and joining on a
    separator, suffix tests, character replacement, code-point ordering and
    sorting of strings (Python's `sorted` on `str`), and decimal integers
    (Python's `int(...)` and `f"{n}"`). */
module Strings {
  import opened Wrappers

  // ---------------------------------------------------------------------------
  // Splitting and joining (Python's `str.split(sep)` and `sep.join(parts)`)
  // ---------------------------------------------------------------------------

  function Join(parts: seq<string>, sep: char): (s: string)
    requires |parts| >= 1
  {
    if |parts| == 1 then parts[0] else parts[0] + [sep] + Join(parts[1..], sep)
  }

  /** `s.split(sep)`: never empty, no part holds the separator, and joining the
      parts back gives `s`. */
  function Split(s: string, sep: char): (parts: seq<string>)
    ensures |parts| >= 1
    ensures forall i :: 0 <= i < |parts| ==> sep !in parts[i]
    ensures Join(parts, sep) == s
    decreases |s|
  {
    if s == [] then [[]]
    else
      var rest := Split(s[1..], sep);
      if s[0] == sep then
        assert Join([[]] + rest, sep) == [sep] + Join(rest, sep);
        [[]] + rest
      else
        var r := [[s[0]] + rest[0]] + rest[1..];
        assert |rest| > 1 ==> Join(r, sep) == [s[0]] + rest[0] + [sep] + Join(rest[1..], sep);
        r
  }

  lemma {:induction false} SplitNoSeparator(a: string, sep: char)
    requires sep !in a
    ensures Split(a, sep) == [a]
    decreases |a|
  {
    if a != [] {
      SplitNoSeparator(a[1..], sep);
    }
  }

  lemma {:induction false} SplitAtFirstSeparator(a: string, sep: char, rest: string)
    requires sep !in a
    ensures Split(a + [sep] + rest, sep) == [a] + Split(rest, sep)
    decreases |a|
  {
    if a == [] {
      assert a + [sep] + rest == [sep] + rest;
      assert ([sep] + rest)[1..] == rest;
    } else {
      var s := a + [sep] + rest;
      assert s[0] == a[0] && s[0] != sep;
      assert s[1..] == a[1..] + [sep] + rest;
      SplitAtFirstSeparator(a[1..], sep, rest);
      var tail := Split(s[1..], sep);
      assert tail[0] == a[1..] && tail[1..] == Split(rest, sep);
      assert Split(s, sep) == [[s[0]] + tail[0]] + tail[1..];
      assert [a[0]] + a[1..] == a;
    }
  }

  /** Splitting undoes joining when no part holds the separator. */
  lemma {:induction false} SplitJoin(parts: seq<string>, sep: char)
    requires |parts| >= 1
    requires forall i :: 0 <= i < |parts| ==> sep !in parts[i]
    ensures Split(Join(parts, sep), sep) == parts
    decreases |parts|
  {
    if |parts| == 1 {
      SplitNoSeparator(parts[0], sep);
    } else {
      SplitJoin(parts[1..], sep);
      SplitAtFirstSeparator(parts[0], sep, Join(parts[1..], sep));
      assert [parts[0]] + parts[1..] == parts;
    }
  }

  // ---------------------------------------------------------------------------
  // Searching and affixes
  // ---------------------------------------------------------------------------

  /** Python's `s.rfind(c)`: the last index of `c`, or -1. */
  function LastIndexOf(s: string, c: char): (r: int)
    ensures -1 <= r < |s|
    ensures r >= 0 ==> s[r] == c
    ensures forall j :: r < j < |s| ==> s[j] != c
    decreases |s|
  {
    if s == [] then -1
    else if s[|s| - 1] == c then |s| - 1
    else LastIndexOf(s[..|s| - 1], c)
  }

  /** Python's `s.find(c)`: the first index of `c`, or -1. */
  function IndexOf(s: string, c: char): (r: int)
    ensures -1 <= r < |s|
    ensures r >= 0 ==> s[r] == c
    ensures forall j :: 0 <= j < |s| && (r < 0 || j < r) ==> s[j] != c
    decreases |s|
  {
    if s == [] then -1
    else if s[0] == c then 0
    else
      var k := IndexOf(s[1..], c);
      if k < 0 then -1 else k + 1
  }

  /** Python's `s.partition(c)` without the middle part: the text before the
      first `c` and the text after it; all of `s` and `""` when `c` does not
      occur. */
  function Partition(s: string, c: char): (r: (string, string))
    ensures c !in r.0
    ensures c in s ==> r.0 + [c] + r.1 == s
    ensures c !in s ==> r.0 == s && r.1 == ""
  {
    var k := IndexOf(s, c);
    if k < 0 then (s, "")
    else
      assert s[..k] + [c] + s[k + 1..] == s;
      (s[..k], s[k + 1..])
  }

  /** Partitioning text built around its first separator gives back the two
      sides. */
  lemma PartitionOf(a: string, c: char, b: string)
    requires c !in a
    ensures Partition(a + [c] + b, c) == (a, b)
  {
    var s := a + [c] + b;
    var k := IndexOf(s, c);
    assert s[|a|] == c;
    assert k == |a|;
    assert s[..k] == a && s[k + 1..] == b;
  }

  /** The last separator of text whose tail has none is the one before the
      tail. */
  lemma LastIndexOfBefore(a: string, c: char, b: string)
    requires c !in b
    ensures LastIndexOf(a + [c] + b, c) == |a|
  {
    var s := a + [c] + b;
    var r := LastIndexOf(s, c);
    assert s[|a|] == c;
    assert r >= |a|;
  }

  predicate StartsWith(s: string, prefix: string) {
    |prefix| <= |s| && s[..|prefix|] == prefix
  }

  predicate EndsWith(s: string, suffix: string) {
    |suffix| <= |s| && s[|s| - |suffix|..] == suffix
  }

  /** `t` occurs somewhere in `s` (Python's `t in s`). */
  ghost predicate Occurs(t: string, s: string) {
    exists i :: 0 <= i <= |s| && StartsWith(s[i..], t)
  }

  lemma OccursInConcat(a: string, t: string, b: string)
    ensures Occurs(t, a + t + b)
  {
    assert (a + t + b)[|a|..][..|t|] == t;
  }

  lemma OccursInPrefix(t: string, s: string, suffix: string)
    requires Occurs(t, s)
    ensures Occurs(t, s + suffix)
  {
    var i :| 0 <= i <= |s| && StartsWith(s[i..], t);
    assert (s + suffix)[i..][..|t|] == s[i..][..|t|];
  }

  lemma OccursInSuffix(t: string, s: string, prefix: string)
    requires Occurs(t, s)
    ensures Occurs(t, prefix + s)
  {
    var i :| 0 <= i <= |s| && StartsWith(s[i..], t);
    assert (prefix + s)[|prefix| + i..] == s[i..];
  }

  lemma StartsWithConcat(a: string, b: string)
    ensures StartsWith(a + b, a)
  {
    assert (a + b)[..|a|] == a;
  }

  lemma OccursFirst(a: string, b: string)
    ensures Occurs(a, a + b)
  {
    assert (a + b)[0..][..|a|] == a;
  }

  /** In a text made of five pieces, the second and the fourth occur. */
  lemma OccursInFive(p1: string, p2: string, p3: string, p4: string, p5: string)
    ensures Occurs(p2, p1 + p2 + p3 + p4 + p5)
    ensures Occurs(p4, p1 + p2 + p3 + p4 + p5)
  {
    OccursInConcat(p1, p2, p3);
    OccursInPrefix(p2, p1 + p2 + p3, p4);
    OccursInPrefix(p2, p1 + p2 + p3 + p4, p5);
    OccursInConcat(p1 + p2 + p3, p4, p5);
  }

  // ---------------------------------------------------------------------------
  // Character replacement (Python's `s.replace(a, b)` for single characters)
  // ---------------------------------------------------------------------------

  function ReplaceChar(s: string, from: char, to: char): (r: string)
    ensures |r| == |s|
    ensures forall i :: 0 <= i < |s| ==> r[i] == (if s[i] == from then to else s[i])
  {
    seq(|s|, i requires 0 <= i < |s| => if s[i] == from then to else s[i])
  }

  /** Replacing `a` by `b` is undone by replacing `b` by `a` when `b` did not
      occur in the original. */
  lemma ReplaceCharInverse(s: string, a: char, b: char)
    requires b !in s
    ensures ReplaceChar(ReplaceChar(s, a, b), b, a) == s
  {
  }

  // ---------------------------------------------------------------------------
  // Code-point order and sorting (Python's `sorted` on a list of `str`)
  // ---------------------------------------------------------------------------

  /** Lexicographic order on code points, as Python compares `str`. */
  predicate LessEq(a: string, b: string)
    decreases |a|
  {
    a == [] || (b != [] && (a[0] < b[0] || (a[0] == b[0] && LessEq(a[1..], b[1..]))))
  }

  lemma {:induction false} LessEqTotal(a: string, b: string)
    ensures LessEq(a, b) || LessEq(b, a)
    decreases |a|
  {
    if a != [] && b != [] && a[0] == b[0] {
      LessEqTotal(a[1..], b[1..]);
    }
  }

  lemma {:induction false} LessEqTransitive(a: string, b: string, c: string)
    requires LessEq(a, b) && LessEq(b, c)
    ensures LessEq(a, c)
    decreases |a|
  {
    if a != [] && a[0] == b[0] && b[0] == c[0] {
      LessEqTransitive(a[1..], b[1..], c[1..]);
    }
  }

  lemma {:induction false} LessEqAntisymmetric(a: string, b: string)
    requires LessEq(a, b) && LessEq(b, a)
    ensures a == b
    decreases |a|
  {
    if a != [] {
      LessEqAntisymmetric(a[1..], b[1..]);
      assert a == [a[0]] + a[1..] && b == [b[0]] + b[1..];
    }
  }

  ghost predicate Sorted(s: seq<string>) {
    forall i, j :: 0 <= i < j < |s| ==> LessEq(s[i], s[j])
  }

  function Insert(x: string, s: seq<string>): (r: seq<string>)
    requires Sorted(s)
    ensures Sorted(r)
    ensures multiset(r) == multiset(s) + multiset{x}
  {
    if s == [] then [x]
    else if LessEq(x, s[0]) then
      forall j | 0 <= j < |s| ensures LessEq(x, s[j]) {
        if j > 0 { LessEqTransitive(x, s[0], s[j]); }
      }
      SortedCons(x, s);
      [x] + s
    else
      LessEqTotal(x, s[0]);
      var tail := Insert(x, s[1..]);
      assert s == [s[0]] + s[1..];
      BelowAll(s[0], tail, s[1..], x);
      SortedCons(s[0], tail);
      [s[0]] + tail
  }

  lemma SortedCons(x: string, s: seq<string>)
    requires Sorted(s)
    requires forall j :: 0 <= j < |s| ==> LessEq(x, s[j])
    ensures Sorted([x] + s)
  {
  }

  /** A lower bound of a sorted list and of `x` bounds every element of a
      list holding the same elements plus `x`. */
  lemma BelowAll(y: string, tail: seq<string>, s: seq<string>, x: string)
    requires Sorted([y] + s) && LessEq(y, x)
    requires multiset(tail) == multiset(s) + multiset{x}
    ensures forall j :: 0 <= j < |tail| ==> LessEq(y, tail[j])
  {
    forall j | 0 <= j < |tail| ensures LessEq(y, tail[j]) {
      assert tail[j] in multiset(tail);
      if tail[j] != x {
        assert tail[j] in multiset(s);
        var k :| 0 <= k < |s| && s[k] == tail[j];
        var ys := [y] + s;
        assert ys[0] == y && ys[k + 1] == s[k];
        assert LessEq(ys[0], ys[k + 1]);
      }
    }
  }

  /** Python's `sorted(xs)`: ascending, and a permutation of `xs`. */
  function Sort(xs: seq<string>): (r: seq<string>)
    ensures Sorted(r)
    ensures multiset(r) == multiset(xs)
  {
    if xs == [] then []
    else
      assert xs == [xs[0]] + xs[1..];
      Insert(xs[0], Sort(xs[1..]))
  }

  /** Sorting a list that is already in order leaves it as it is. */
  lemma {:induction false} SortSorted(xs: seq<string>)
    requires Sorted(xs)
    ensures Sort(xs) == xs
  {
    if xs != [] {
      SortSorted(xs[1..]);
      assert xs == [xs[0]] + xs[1..];
    }
  }

  /** A common prefix does not change the order of two texts. */
  lemma {:induction false} LessEqCommonPrefix(p: string, a: string, b: string)
    requires LessEq(a, b)
    ensures LessEq(p + a, p + b)
    decreases |p|
  {
    if p != [] {
      LessEqCommonPrefix(p[1..], a, b);
      assert (p + a)[1..] == p[1..] + a && (p + b)[1..] == p[1..] + b;
    } else {
      assert p + a == a && p + b == b;
    }
  }

  // ---------------------------------------------------------------------------
  // Decimal integers
  // ---------------------------------------------------------------------------

  predicate IsDigit(c: char) { '0' <= c <= '9' }

  predicate AllDigits(s: string) { forall i :: 0 <= i < |s| ==> IsDigit(s[i]) }

  function DigitChar(d: nat): (c: char)
    requires d < 10
  {
    '0' + d as char
  }

  function ParseNat(s: string): (n: nat)
    requires AllDigits(s)
  {
    if s == [] then 0 else ParseNat(s[..|s| - 1]) * 10 + (s[|s| - 1] - '0') as nat
  }

  /** `f"{n}"` for a natural number: non-empty decimal digits. */
  function NatToString(n: nat): (s: string)
    ensures s != [] && AllDigits(s)
  {
    if n < 10 then [DigitChar(n)] else NatToString(n / 10) + [DigitChar(n % 10)]
  }

  /** Python's `int(s)` on an optional sign followed by ASCII digits; anything
      else is the `ValueError` path. */
  function ParseInt(s: string): (r: Option<int>)
    ensures r.Some? <==> s != [] && (if s[0] == '-' || s[0] == '+' then |s| > 1 && AllDigits(s[1..]) else AllDigits(s))
    ensures r.Some? && s[0] != '-' && s[0] != '+' ==> AllDigits(s) && r.value == ParseNat(s)
    ensures r.Some? && s[0] == '-' ==> r.value == -(ParseNat(s[1..]) as int)
    ensures r.Some? && s[0] == '+' ==> r.value == ParseNat(s[1..])
  {
    if s == [] then None
    else if s[0] == '-' || s[0] == '+' then
      var digits := s[1..];
      if digits != [] && AllDigits(digits) then
        Some(if s[0] == '-' then -(ParseNat(digits) as int) else ParseNat(digits))
      else None
    else if AllDigits(s) then Some(ParseNat(s))
    else None
  }

  /** `f"{i}"` for any integer. */
  function IntToString(i: int): (s: string)
    ensures s != []
    ensures '.' !in s
  {
    if i < 0 then "-" + NatToString(-i) else NatToString(i)
  }

  lemma {:induction false} ParseNatToString(n: nat)
    ensures ParseNat(NatToString(n)) == n
    decreases n
  {
    if n >= 10 {
      ParseNatToString(n / 10);
      var s := NatToString(n);
      assert s[..|s| - 1] == NatToString(n / 10);
    }
  }

  /** Decimal printing and `int(...)` are inverse. */
  lemma ParseIntToString(i: int)
    ensures ParseInt(IntToString(i)) == Some(i)
  {
    if i < 0 {
      ParseNatToString(-i);
      assert IntToString(i)[1..] == NatToString(-i);
    } else {
      ParseNatToString(i);
    }
  }
}
