/** Generic helpers shared by the inbox model: an optional value, list
    filtering, flattening, repetition and decimal rendering of numbers. */
module Util {

  /** A value that may be missing (`undefined` in JavaScript). */
  datatype Option<+T> = None | Some(value: T) {
    /** `x ?? d` / `x || d` for a present-or-absent value. */
    function GetOr(default: T): T {
      match this
      case Some(v) => v
      case None => default
    }
  }

  /** A string value that JavaScript treats as truthy: present and non-empty. */
  predicate Present(s: Option<string>) {
    s.Some? && s.value != ""
  }

  /** `x || fallback` for an optional string. */
  function OrElse(x: Option<string>, fallback: string): (r: string)
    ensures Present(x) ==> r == x.value
    ensures !Present(x) ==> r == fallback
  {
    if Present(x) then x.value else fallback
  }

  /** `xs.filter(p)`: the elements satisfying `p`, in their original order. */
  function Filter<T(==,!new)>(xs: seq<T>, p: T -> bool): (r: seq<T>)
    ensures |r| <= |xs|
    ensures forall x :: x in r <==> x in xs && p(x)
    ensures forall i :: 0 <= i < |r| ==> p(r[i])
  {
    if xs == [] then []
    else if p(xs[0]) then [xs[0]] + Filter(xs[1..], p)
    else Filter(xs[1..], p)
  }

  /** `xs` occurs in `ys` in order, possibly with gaps. */
  predicate IsSubsequence<T(==)>(xs: seq<T>, ys: seq<T>)
    decreases |ys|
  {
    if xs == [] then true
    else if ys == [] then false
    else if xs[0] == ys[0] then IsSubsequence(xs[1..], ys[1..])
    else IsSubsequence(xs, ys[1..])
  }

  /** Filtering keeps the order of the list it filters. */
  lemma {:induction false} FilterIsSubsequence<T(!new)>(xs: seq<T>, p: T -> bool)
    ensures IsSubsequence(Filter(xs, p), xs)
  {
    if xs != [] {
      FilterIsSubsequence(xs[1..], p);
      if !p(xs[0]) {
        SubsequenceOfTail(Filter(xs[1..], p), xs);
      }
    }
  }

  /** Every list is a subsequence of itself. */
  lemma {:induction false} SubsequenceRefl<T>(xs: seq<T>)
    ensures IsSubsequence(xs, xs)
  {
    if xs != [] {
      SubsequenceRefl(xs[1..]);
    }
  }

  /** A subsequence of the tail is a subsequence of the whole list. */
  lemma {:induction false} SubsequenceOfTail<T>(xs: seq<T>, ys: seq<T>)
    requires ys != []
    requires IsSubsequence(xs, ys[1..])
    ensures IsSubsequence(xs, ys)
    decreases |ys|, 0
  {
    if xs != [] && xs[0] == ys[0] {
      DropHead(xs, ys[1..]);
    }
  }

  /** If `xs` is a subsequence of `ys`, so is its tail. */
  lemma {:induction false} DropHead<T>(xs: seq<T>, ys: seq<T>)
    requires xs != []
    requires IsSubsequence(xs, ys)
    ensures IsSubsequence(xs[1..], ys)
    decreases |ys|, 1
  {
    if xs[0] == ys[0] {
      SubsequenceOfTail(xs[1..], ys);
    } else {
      DropHead(xs, ys[1..]);
      SubsequenceOfTail(xs[1..], ys);
    }
  }

  /** No element occurs twice. */
  predicate Distinct<T(==)>(xs: seq<T>) {
    forall i, j :: 0 <= i < j < |xs| ==> xs[i] != xs[j]
  }

  /** A list without repetitions holds each of its elements exactly once. */
  lemma {:induction false} DistinctCount<T>(xs: seq<T>)
    requires Distinct(xs)
    ensures forall x :: multiset(xs)[x] == (if x in xs then 1 else 0)
  {
    if xs != [] {
      assert Distinct(xs[1..]);
      DistinctCount(xs[1..]);
      assert xs == [xs[0]] + xs[1..];
      assert xs[0] !in xs[1..];
    }
  }

  /** Filtering keeps every copy of a kept element and none of a dropped one. */
  lemma {:induction false} FilterCount<T(!new)>(xs: seq<T>, p: T -> bool, x: T)
    ensures multiset(Filter(xs, p))[x] == (if p(x) then multiset(xs)[x] else 0)
  {
    if xs != [] {
      FilterCount(xs[1..], p, x);
      assert xs == [xs[0]] + xs[1..];
      if p(xs[0]) {
        assert Filter(xs, p) == [xs[0]] + Filter(xs[1..], p);
      }
    }
  }

  /** `FilterCount` for every element at once. */
  lemma FilterCounts<T(!new)>(xs: seq<T>, p: T -> bool)
    ensures forall x :: multiset(Filter(xs, p))[x] == (if p(x) then multiset(xs)[x] else 0)
  {
    forall x ensures multiset(Filter(xs, p))[x] == (if p(x) then multiset(xs)[x] else 0) {
      FilterCount(xs, p, x);
    }
  }

  /** Two complementary filters split a list without losing or duplicating anything. */
  lemma {:induction false} FilterPartition<T(!new)>(xs: seq<T>, p: T -> bool, q: T -> bool)
    requires forall i :: 0 <= i < |xs| ==> (p(xs[i]) <==> !q(xs[i]))
    ensures multiset(Filter(xs, p)) + multiset(Filter(xs, q)) == multiset(xs)
  {
    if xs != [] {
      var x, rest := xs[0], xs[1..];
      FilterPartition(rest, p, q);
      assert xs == [x] + rest;
      if p(x) {
        assert Filter(xs, p) == [x] + Filter(rest, p);
        assert Filter(xs, q) == Filter(rest, q);
      } else {
        assert Filter(xs, p) == Filter(rest, p);
        assert Filter(xs, q) == [x] + Filter(rest, q);
      }
    }
  }

  /** `f(xs[0], first) + f(xs[1], first + 1) + ...`: every item rendered with
      its running number, joined in order (a `forEach((x, i) => out += ...)`). */
  function Numbered<T, U>(xs: seq<T>, first: nat, f: (T, nat) -> seq<U>): seq<U> {
    if xs == [] then [] else f(xs[0], first) + Numbered(xs[1..], first + 1, f)
  }

  /** Numbering carries on across the two halves of a list. */
  lemma {:induction false} NumberedAppend<T, U>(a: seq<T>, b: seq<T>, first: nat, f: (T, nat) -> seq<U>)
    ensures Numbered(a + b, first, f) == Numbered(a, first, f) + Numbered(b, first + |a|, f)
  {
    if a == [] {
      assert a + b == b;
    } else {
      assert (a + b)[1..] == a[1..] + b;
      NumberedAppend(a[1..], b, first + 1, f);
    }
  }

  /** Item `i` of the list is rendered with number `first + i`, between the
      items before it and those after it. */
  lemma NumberedAt<T, U>(xs: seq<T>, i: nat, first: nat, f: (T, nat) -> seq<U>)
    requires i < |xs|
    ensures Numbered(xs, first, f)
         == Numbered(xs[..i], first, f) + f(xs[i], first + i) + Numbered(xs[i + 1..], first + i + 1, f)
  {
    var rest := [xs[i]] + xs[i + 1..];
    assert xs == xs[..i] + rest;
    NumberedAppend(xs[..i], rest, first, f);
    assert rest[1..] == xs[i + 1..];
  }

  /** Extending the list by one item extends the text by that item's rendering. */
  lemma NumberedSnoc<T, U>(xs: seq<T>, x: T, first: nat, f: (T, nat) -> seq<U>)
    ensures Numbered(xs + [x], first, f) == Numbered(xs, first, f) + f(x, first + |xs|)
  {
    NumberedAppend(xs, [x], first, f);
    assert [x][1..] == [];
  }

  /** `x.repeat(n)` for a one-character string, generalised to any element. */
  function Repeat<T>(x: T, n: nat): (r: seq<T>)
    ensures |r| == n
    ensures forall i :: 0 <= i < n ==> r[i] == x
  {
    if n == 0 then [] else [x] + Repeat(x, n - 1)
  }

  /** The decimal digit character for `d`. */
  function DigitChar(d: nat): (c: char)
    requires d < 10
    ensures IsDigit(c)
  {
    ('0' as int + d) as char
  }

  predicate IsDigit(c: char) {
    '0' <= c <= '9'
  }

  /** The value of a decimal digit character. */
  function DigitValue(c: char): (v: nat)
    requires IsDigit(c)
    ensures v < 10
    ensures DigitChar(v) == c
  {
    (c as int - '0' as int) as nat
  }

  /** `String(n)` for a natural number: its decimal digits, without leading zeros. */
  function NatToString(n: nat): (s: string)
    ensures |s| >= 1
    ensures forall i :: 0 <= i < |s| ==> IsDigit(s[i])
    ensures |s| > 1 ==> s[0] != '0'
  {
    if n < 10 then [DigitChar(n)] else NatToString(n / 10) + [DigitChar(n % 10)]
  }

  /** `String(i)` for an integer: a minus sign before the digits of a negative one. */
  function IntToString(i: int): (s: string)
    ensures |s| >= 1
    ensures i >= 0 ==> s == NatToString(i)
    ensures i < 0 ==> s[0] == '-' && s[1..] == NatToString(-i)
  {
    if i < 0 then "-" + NatToString(-i) else NatToString(i)
  }

  /** Reads a string of decimal digits as a natural number (the inverse of NatToString). */
  function ParseNat(s: string): nat
    requires forall i :: 0 <= i < |s| ==> IsDigit(s[i])
  {
    if s == [] then 0 else 10 * ParseNat(s[..|s| - 1]) + DigitValue(s[|s| - 1])
  }

  /** Rendering a number in decimal loses nothing: parsing gives it back. */
  lemma {:induction false} ParseNatToString(n: nat)
    ensures ParseNat(NatToString(n)) == n
  {
    if n >= 10 {
      var s := NatToString(n);
      ParseNatToString(n / 10);
      assert s[..|s| - 1] == NatToString(n / 10);
      assert DigitValue(s[|s| - 1]) == n % 10;
    }
  }

  /** Distinct numbers render as distinct decimal strings. */
  lemma NatToStringInjective(a: nat, b: nat)
    requires NatToString(a) == NatToString(b)
    ensures a == b
  {
    ParseNatToString(a);
    ParseNatToString(b);
  }
}
