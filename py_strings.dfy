/**
  The Python `str` operations the converters use, with CPython's semantics:
  `s.strip(c)`, `s.split(sep)` for a one-character separator, `sub in s`
  and the slice `s[:n]`.
 */
module PyStrings {

  /** `c` repeated `n` times. */
  function Rep(c: char, n: nat): (r: string)
    ensures |r| == n
    ensures forall k :: 0 <= k < n ==> r[k] == c
  {
    if n == 0 then [] else [c] + Rep(c, n - 1)
  }

  /** `s.lstrip(c)`: drop every leading `c`. */
  function LStrip(s: string, c: char): (r: string)
    ensures |r| <= |s| && r == s[|s| - |r|..]
    ensures forall k :: 0 <= k < |s| - |r| ==> s[k] == c
    ensures r == [] || r[0] != c
  {
    if s != [] && s[0] == c then LStrip(s[1..], c) else s
  }

  /** `s.rstrip(c)`: drop every trailing `c`. */
  function RStrip(s: string, c: char): (r: string)
    ensures |r| <= |s| && r == s[..|r|]
    ensures forall k :: |r| <= k < |s| ==> s[k] == c
    ensures r == [] || r[|r| - 1] != c
  {
    if s != [] && s[|s| - 1] == c then RStrip(s[..|s| - 1], c) else s
  }

  /** `s.strip(c)`: drop every leading and every trailing `c`. */
  function Strip(s: string, c: char): (r: string)
    ensures r == [] || (r[0] != c && r[|r| - 1] != c)
  {
    RStrip(LStrip(s, c), c)
  }

  /** Stripping `c` leaves every other character where it was: such a
      character is in the result exactly when it is in `s`. */
  lemma StripKeeps(s: string, c: char, x: char)
    requires x != c
    ensures x in Strip(s, c) <==> x in s
  {
    LStripKeeps(s, c, x);
    RStripKeeps(LStrip(s, c), c, x);
  }

  lemma LStripKeeps(s: string, c: char, x: char)
    requires x != c
    ensures x in LStrip(s, c) <==> x in s
  {
    var l := LStrip(s, c);
    var n := |s| - |l|;
    assert s == s[..n] + l;
    assert x !in s[..n];
  }

  lemma RStripKeeps(s: string, c: char, x: char)
    requires x != c
    ensures x in RStrip(s, c) <==> x in s
  {
    var r := RStrip(s, c);
    assert s == r + s[|r|..];
    assert x !in s[|r|..];
  }

  /** Stripping removes exactly the runs of `c` at both ends: whatever core
      `t` is padded with `c`, `strip` gives `t` back. */
  lemma {:induction false} StripExact(a: nat, t: string, b: nat, c: char)
    requires t == [] || (t[0] != c && t[|t| - 1] != c)
    ensures Strip(Rep(c, a) + t + Rep(c, b), c) == t
  {
    var s := Rep(c, a) + t + Rep(c, b);
    if t == [] {
      assert s == Rep(c, a + b) + [];
      LStripPadded(a + b, [], c);
    } else {
      assert s == Rep(c, a) + (t + Rep(c, b));
      LStripPadded(a, t + Rep(c, b), c);
      RStripPadded(t, b, c);
    }
    assert RStrip(LStrip(s, c), c) == t;
  }

  /** Text that neither starts nor ends with `c` is left alone by `strip(c)`. */
  lemma StripUnpadded(t: string, c: char)
    requires t == [] || (t[0] != c && t[|t| - 1] != c)
    ensures Strip(t, c) == t
  {
    assert Rep(c, 0) + t + Rep(c, 0) == t;
    StripExact(0, t, 0, c);
  }

  /** `lstrip` removes a leading run of `c` and stops at the first other
      character. */
  lemma LStripPadded(a: nat, u: string, c: char)
    requires u == [] || u[0] != c
    ensures LStrip(Rep(c, a) + u, c) == u
  {
    var s := Rep(c, a) + u;
    var r := LStrip(s, c);
    assert r == s[a..];
  }

  /** `rstrip` removes a trailing run of `c` and stops at the last other
      character. */
  lemma RStripPadded(t: string, b: nat, c: char)
    requires t == [] || t[|t| - 1] != c
    ensures RStrip(t + Rep(c, b), c) == t
  {
    var s := t + Rep(c, b);
    var r := RStrip(s, c);
    assert r == s[..|t|];
  }

  /** The index of the first `c` in `s`. */
  function IndexOf(s: string, c: char): (i: nat)
    requires c in s
    ensures i < |s| && s[i] == c && c !in s[..i]
  {
    if s[0] == c then 0 else 1 + IndexOf(s[1..], c)
  }

  /** `sep.join(parts)`. */
  function Join(parts: seq<string>, sep: char): string
  {
    if parts == [] then []
    else if |parts| == 1 then parts[0]
    else parts[0] + [sep] + Join(parts[1..], sep)
  }

  /** `s.split(sep)` with an explicit one-character separator: the text
      between consecutive separators, always at least one (possibly empty)
      piece. Joining the pieces gives `s` back and no piece holds `sep`. */
  function Split(s: string, sep: char): (parts: seq<string>)
    ensures |parts| >= 1
    ensures Join(parts, sep) == s
    ensures forall k :: 0 <= k < |parts| ==> sep !in parts[k]
    decreases |s|
  {
    if sep in s then
      var i := IndexOf(s, sep);
      var rest := Split(s[i + 1..], sep);
      assert s == s[..i] + [sep] + s[i + 1..];
      [s[..i]] + rest
    else
      [s]
  }

  /** Splitting is the inverse of joining: non-empty pieces free of `sep`
      come back unchanged from a join followed by a split. */
  lemma {:induction false} SplitJoin(parts: seq<string>, sep: char)
    requires |parts| >= 1
    requires forall k :: 0 <= k < |parts| ==> sep !in parts[k]
    ensures Split(Join(parts, sep), sep) == parts
  {
    if |parts| > 1 {
      var s := Join(parts, sep);
      assert s == parts[0] + [sep] + Join(parts[1..], sep);
      assert sep in s by { assert s[|parts[0]|] == sep; }
      var i := IndexOf(s, sep);
      FirstSeparator(parts[0], Join(parts[1..], sep), sep);
      assert i == |parts[0]|;
      assert s[..i] == parts[0];
      assert s[i + 1..] == Join(parts[1..], sep);
      SplitJoin(parts[1..], sep);
    }
  }

  /** The first separator of `a + [sep] + b` sits right after `a` when `a`
      holds none. */
  lemma FirstSeparator(a: string, b: string, sep: char)
    requires sep !in a
    ensures sep in a + [sep] + b && IndexOf(a + [sep] + b, sep) == |a|
  {
    var s := a + [sep] + b;
    assert s[|a|] == sep;
  }

  /** The first piece of a split is the text before the first separator
      (all of `s` when there is none). */
  lemma SplitHead(s: string, sep: char)
    ensures sep in s ==> Split(s, sep)[0] == s[..IndexOf(s, sep)]
    ensures sep !in s ==> Split(s, sep) == [s]
  {
  }

  /** The first piece of a split is the longest prefix of `s` free of the
      separator: it is followed by the separator or by the end of `s`. */
  lemma SplitHeadIsMaximalPrefix(s: string, sep: char)
    ensures StartsWith(s, Split(s, sep)[0])
    ensures Split(s, sep)[0] == s || s[|Split(s, sep)[0]|] == sep
  {
  }

  /** A second piece exists exactly when `s` holds a separator, and it is the
      first piece of what follows that separator. */
  lemma SplitSecond(s: string, sep: char)
    ensures |Split(s, sep)| >= 2 <==> sep in s
    ensures sep in s ==> Split(s, sep)[1] == Split(s[IndexOf(s, sep) + 1..], sep)[0]
  {
  }

  /** `s.startswith(p)`. */
  predicate StartsWith(s: string, p: string)
  {
    |p| <= |s| && s[..|p|] == p
  }

  /** Being a prefix is transitive. */
  lemma PrefixTrans(a: string, b: string, c: string)
    requires StartsWith(a, b) && StartsWith(b, c)
    ensures StartsWith(a, c)
  {
    assert a[..|c|] == b[..|b|][..|c|];
  }

  /** `sub` occurs in `s` starting at index `i`. */
  predicate OccursAt(s: string, sub: string, i: nat)
  {
    i + |sub| <= |s| && s[i..i + |sub|] == sub
  }

  /** `sub in s`: `sub` occurs somewhere in `s` as a contiguous substring. */
  function Contains(s: string, sub: string): (b: bool)
    ensures b <==> exists i: nat :: OccursAt(s, sub, i)
    decreases |s|
  {
    if StartsWith(s, sub) then
      assert OccursAt(s, sub, 0);
      true
    else if s == [] then
      false
    else
      var b := Contains(s[1..], sub);
      if b then
        var i: nat :| OccursAt(s[1..], sub, i);
        assert s[i + 1..i + 1 + |sub|] == s[1..][i..i + |sub|];
        assert OccursAt(s, sub, i + 1);
        true
      else
        assert forall i: nat :: OccursAt(s, sub, i) ==> i > 0 && OccursAt(s[1..], sub, i - 1) by {
          forall i: nat | OccursAt(s, sub, i) ensures i > 0 && OccursAt(s[1..], sub, i - 1) {
            assert i != 0;
            assert s[1..][i - 1..i - 1 + |sub|] == s[i..i + |sub|];
          }
        }
        false
  }

  /** The slice `s[:n]` for a non-negative `n`: the first `n` characters, or
      all of `s` when it is shorter. */
  function Prefix(s: string, n: nat): (r: string)
    ensures |r| == if |s| < n then |s| else n
    ensures r == s[..|r|]
  {
    if |s| < n then s else s[..n]
  }
}
