/** The string primitives the client code relies on (`trim`, `toLowerCase`,
    `includes`, `substring`, `replace(/.../g, ...)`), over ASCII. */
module Text {

  /** The ASCII characters JavaScript's `trim` and `\s` treat as white space. */
  predicate IsSpace(c: char) {
    c == ' ' || c == '\t' || c == '\n' || c == '\r' || c == '\U{000B}' || c == '\U{000C}'
  }

  predicate IsUpper(c: char) {
    'A' <= c <= 'Z'
  }

  /** `toLowerCase` on one ASCII character. */
  function LowerChar(c: char): (r: char)
    ensures !IsUpper(r)
    ensures !IsUpper(c) ==> r == c
    ensures IsSpace(r) <==> IsSpace(c)
  {
    if IsUpper(c) then (c as int + 32) as char else c
  }

  /** `s.toLowerCase()` over ASCII. */
  function Lower(s: string): (r: string)
    ensures |r| == |s|
    ensures forall i :: 0 <= i < |s| ==> r[i] == LowerChar(s[i])
  {
    seq(|s|, i requires 0 <= i < |s| => LowerChar(s[i]))
  }

  /** Lower-casing twice is lower-casing once. */
  lemma LowerIdempotent(s: string)
    ensures Lower(Lower(s)) == Lower(s)
  {
  }

  /** `s.trimStart()`: the white space at the front removed. */
  function TrimStart(s: string): string {
    if s != [] && IsSpace(s[0]) then TrimStart(s[1..]) else s
  }

  /** `s.trimEnd()`: the white space at the back removed. */
  function TrimEnd(s: string): string {
    if s != [] && IsSpace(s[|s| - 1]) then TrimEnd(s[..|s| - 1]) else s
  }

  /** `s.trim()`. */
  function Trim(s: string): string {
    TrimEnd(TrimStart(s))
  }

  /** `trimStart` removes a prefix of white space, and all of it. */
  lemma {:induction false} TrimStartSpec(s: string)
    ensures var r := TrimStart(s);
      && |r| <= |s| && r == s[|s| - |r|..]
      && (r == [] || !IsSpace(r[0]))
      && forall i :: 0 <= i < |s| - |r| ==> IsSpace(s[i])
  {
    if s != [] && IsSpace(s[0]) {
      TrimStartSpec(s[1..]);
    }
  }

  /** `trimEnd` removes a suffix of white space, and all of it. */
  lemma {:induction false} TrimEndSpec(s: string)
    ensures var r := TrimEnd(s);
      && |r| <= |s| && r == s[..|r|]
      && (r == [] || !IsSpace(r[|r| - 1]))
      && forall i :: |r| <= i < |s| ==> IsSpace(s[i])
  {
    if s != [] && IsSpace(s[|s| - 1]) {
      TrimEndSpec(s[..|s| - 1]);
    }
  }

  /** `trim` keeps the part of `s` between its leading and trailing white
      space: everything it drops is white space, and what it keeps neither
      starts nor ends with white space. */
  lemma TrimSpec(s: string)
    ensures |TrimStart(s)| <= |s|
    ensures var a := |s| - |TrimStart(s)|;
            var r := Trim(s);
      && a + |r| <= |s| && r == s[a..a + |r|]
      && (forall i :: 0 <= i < a ==> IsSpace(s[i]))
      && (forall i :: a + |r| <= i < |s| ==> IsSpace(s[i]))
      && (r == [] || (!IsSpace(r[0]) && !IsSpace(r[|r| - 1])))
  {
    var t := TrimStart(s);
    TrimStartSpec(s);
    TrimEndSpec(t);
    var a := |s| - |t|;
    var r := Trim(s);
    forall i | a + |r| <= i < |s| ensures IsSpace(s[i]) {
      assert s[i] == t[i - a];
    }
    if r != [] {
      assert r[0] == t[0];
    }
  }

  /** A string trims to nothing exactly when it is all white space. */
  lemma TrimBlank(s: string)
    ensures Trim(s) == [] <==> forall i :: 0 <= i < |s| ==> IsSpace(s[i])
  {
    TrimSpec(s);
    var a := |s| - |TrimStart(s)|;
    var r := Trim(s);
    if r != [] {
      assert r[0] == s[a];
    }
  }

  /** Trimming and lower-casing can be done in either order. */
  lemma {:induction false} LowerTrimStart(s: string)
    ensures TrimStart(Lower(s)) == Lower(TrimStart(s))
  {
    if s != [] {
      assert Lower(s)[1..] == Lower(s[1..]);
      LowerTrimStart(s[1..]);
    }
  }

  lemma {:induction false} LowerTrimEnd(s: string)
    ensures TrimEnd(Lower(s)) == Lower(TrimEnd(s))
  {
    if s != [] {
      assert Lower(s)[..|s| - 1] == Lower(s[..|s| - 1]);
      LowerTrimEnd(s[..|s| - 1]);
    }
  }

  lemma LowerTrim(s: string)
    ensures Trim(Lower(s)) == Lower(Trim(s))
  {
    LowerTrimStart(s);
    LowerTrimEnd(TrimStart(s));
  }

  /** `s.includes(sub)`: `sub` occurs somewhere in `s`. */
  predicate Contains(s: string, sub: string)
    decreases |s|
  {
    if sub <= s then true
    else if s == [] then false
    else Contains(s[1..], sub)
  }

  /** `sub` occurs in `s` starting at offset `i`. */
  predicate OccursAt(s: string, sub: string, i: int) {
    0 <= i <= |s| - |sub| && s[i..i + |sub|] == sub
  }

  /** `Contains` means what it says: an occurrence at some offset. */
  lemma {:induction false} ContainsAt(s: string, sub: string)
    ensures Contains(s, sub) <==> exists i :: OccursAt(s, sub, i)
    decreases |s|
  {
    if sub <= s {
      assert OccursAt(s, sub, 0);
    } else if s != [] {
      ContainsAt(s[1..], sub);
      if exists i :: OccursAt(s, sub, i) {
        var i :| OccursAt(s, sub, i);
        assert i != 0;
        assert OccursAt(s[1..], sub, i - 1);
      }
      if exists j :: OccursAt(s[1..], sub, j) {
        var j :| OccursAt(s[1..], sub, j);
        assert OccursAt(s, sub, j + 1);
      }
    }
  }

  /** `s.substring(0, n)`. */
  function Take(s: string, n: nat): (r: string)
    ensures |r| <= n
    ensures |s| <= n ==> r == s
    ensures |s| > n ==> |r| == n
    ensures r <= s
  {
    if |s| <= n then s else s[..n]
  }

  /** `s.replace(/pat/g, rep)` for a literal pattern: every occurrence, scanning
      from the left and never overlapping, is replaced by `rep`. */
  function ReplaceAll(s: string, pat: string, rep: string): string
    requires |pat| > 0
    decreases |s|
  {
    if s == [] then []
    else if pat <= s then rep + ReplaceAll(s[|pat|..], pat, rep)
    else [s[0]] + ReplaceAll(s[1..], pat, rep)
  }

  /** Each character of `s` replaced by the string `f` gives for it. */
  function MapConcat(s: string, f: char -> string): string {
    if s == [] then [] else f(s[0]) + MapConcat(s[1..], f)
  }

  function Singleton(c: char): string {
    [c]
  }

  /** Mapping every character to itself gives the string back. */
  lemma {:induction false} MapConcatSingleton(s: string)
    ensures MapConcat(s, Singleton) == s
  {
    if s != [] {
      MapConcatSingleton(s[1..]);
      assert s == [s[0]] + s[1..];
    }
  }

  /** `x` cannot take part in an occurrence of `pat`: the first character of
      `pat` appears in `x` at most at its front, and then `x` is long enough to
      show that `pat` does not start there. */
  ghost predicate Inert(x: string, pat: string)
    requires |pat| > 0
  {
    forall i :: 0 <= i < |x| && x[i] == pat[0] ==> i == 0 && |x| >= |pat| && !(pat <= x)
  }

  /** An inert block passes through a replacement unchanged, whatever follows it. */
  lemma {:induction false} ReplaceInert(x: string, rest: string, pat: string, rep: string)
    requires |pat| > 0 && Inert(x, pat)
    ensures ReplaceAll(x + rest, pat, rep) == x + ReplaceAll(rest, pat, rep)
  {
    if x == [] {
      assert x + rest == rest;
    } else {
      var s := x + rest;
      assert !(pat <= s) by {
        if x[0] == pat[0] {
          assert s[..|pat|] == x[..|pat|];
        }
      }
      assert s[1..] == x[1..] + rest;
      ReplaceInert(x[1..], rest, pat, rep);
    }
  }

  /** Replacing in a string built block by block, where every block is either an
      exact occurrence of the pattern or inert, replaces exactly those blocks. */
  lemma {:induction false} ReplaceMapConcat(s: string, f: char -> string, g: char -> string, pat: string, rep: string)
    requires |pat| > 0
    requires forall c :: f(c) == pat || Inert(f(c), pat)
    requires forall c :: g(c) == if f(c) == pat then rep else f(c)
    ensures ReplaceAll(MapConcat(s, f), pat, rep) == MapConcat(s, g)
  {
    if s != [] {
      var rest := MapConcat(s[1..], f);
      ReplaceMapConcat(s[1..], f, g, pat, rep);
      if f(s[0]) == pat {
        assert pat <= pat + rest;
        assert (pat + rest)[|pat|..] == rest;
      } else {
        ReplaceInert(f(s[0]), rest, pat, rep);
      }
    }
  }
}
