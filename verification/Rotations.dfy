/** Cyclic rotations of blink codes, and the wrapped-pattern search that recognises them. */
module Rotations {

  function Rotate(t: string, k: nat): (r: string)
    requires k <= |t|
  {
    t[k..] + t[..k]
  }

  ghost predicate IsRotation(s: string, t: string) {
    |s| == |t| && exists k :: 0 <= k <= |t| && s == Rotate(t, k)
  }

  predicate FoundAt(sub: string, s: string, k: nat) {
    k + |sub| <= |s| && s[k..k + |sub|] == sub
  }

  /** Does the search for `sub` in `s` succeed (the C++ string `find` other than `npos`)? */
  predicate Occurs(sub: string, s: string) {
    exists k :: 0 <= k <= |s| && FoundAt(sub, s, k)
  }

  /** A pattern followed by a second copy of itself without its last character. */
  function Wrap(pat: string): (r: string)
    requires pat != ""
    ensures |r| == 2 * |pat| - 1
  {
    (pat + pat)[..2 * |pat| - 1]
  }

  lemma WrapSlice(pat: string, k: nat)
    requires k < |pat|
    ensures Wrap(pat)[k..k + |pat|] == Rotate(pat, k)
  {
    var n := |pat|;
    assert forall i :: 0 <= i < n ==> Wrap(pat)[k..k + n][i] == Rotate(pat, k)[i];
  }

  /** The substring search finds a window of the pattern's own length
      if and only if the window is a rotation of the pattern. */
  lemma SubstringIffRotation(bits: string, pat: string)
    requires |bits| == |pat| && pat != ""
    ensures Occurs(bits, Wrap(pat)) <==> IsRotation(bits, pat)
  {
    if Occurs(bits, Wrap(pat)) {
      var k :| 0 <= k <= |Wrap(pat)| && FoundAt(bits, Wrap(pat), k);
      WrapSlice(pat, k);
    }
    if IsRotation(bits, pat) {
      var k :| 0 <= k <= |pat| && bits == Rotate(pat, k);
      var j := if k == |pat| then 0 else k;
      assert Rotate(pat, |pat|) == Rotate(pat, 0);
      WrapSlice(pat, j);
      assert FoundAt(bits, Wrap(pat), j);
    }
  }

  lemma RotationSymmetric(s: string, t: string)
    requires IsRotation(s, t)
    ensures IsRotation(t, s)
  {
    var k :| 0 <= k <= |t| && s == Rotate(t, k);
    assert t == Rotate(s, |t| - k);
  }

  lemma RotateTwice(u: string, k: nat, j: nat)
    requires k <= |u| && j <= |u|
    ensures Rotate(Rotate(u, k), j) == Rotate(u, if j + k <= |u| then j + k else j + k - |u|)
  {
    var n := |u|;
    var t := Rotate(u, k);
    if j + k <= n {
      assert t[j..] == u[j + k..] + u[..k];
      assert t[..j] == u[k..j + k];
    } else {
      assert t[j..] == u[j + k - n..k];
      assert t[..j] == u[k..] + u[..j + k - n];
    }
  }

  lemma RotationTransitive(s: string, t: string, u: string)
    requires IsRotation(s, t) && IsRotation(t, u)
    ensures IsRotation(s, u)
  {
    var j :| 0 <= j <= |t| && s == Rotate(t, j);
    var k :| 0 <= k <= |u| && t == Rotate(u, k);
    RotateTwice(u, k, j);
  }

  /** Rotations hold the same characters. */
  lemma RotationKeepsCharacters(s: string, t: string, c: char)
    requires IsRotation(s, t)
    ensures c in s <==> c in t
  {
    var k :| 0 <= k <= |t| && s == Rotate(t, k);
    assert t == t[..k] + t[k..];
  }

  /** Reading a cyclic code from any phase on, for one whole period, gives a rotation of it. */
  lemma PeriodIsRotation(s: string, code: string, phase: nat)
    requires |s| == |code| && code != ""
    requires forall i :: 0 <= i < |s| ==> s[i] == code[(phase + i) % |code|]
    ensures IsRotation(s, code)
  {
    var k := phase % |code|;
    forall i | 0 <= i < |s| ensures s[i] == Rotate(code, k)[i] {
      ModOfSum(phase, i, |code|);
    }
    assert s == Rotate(code, k);
  }

  lemma ModOfSum(p: nat, i: nat, n: nat)
    requires i < n
    ensures (p + i) % n == if p % n + i < n then p % n + i else p % n + i - n
  {
    var r := p % n + i;
    var q := p / n;
    assert p + i == n * q + r;
    if r < n {
      DivUnique(p + i, n, q, r);
    } else {
      assert n * q + r == n * (q + 1) + (r - n);
      DivUnique(p + i, n, q + 1, r - n);
    }
  }

  lemma DivUnique(x: int, n: nat, q: int, r: int)
    requires n > 0 && 0 <= r < n && x == n * q + r
    ensures x % n == r && x / n == q
  {
    var d := q - x / n;
    assert n * d == x % n - r;
    MulAtLeast(n, d);
  }

  lemma MulAtLeast(n: nat, d: int)
    ensures d >= 1 ==> n * d >= n
    ensures d <= -1 ==> n * d + n <= 0
  {
  }
}
