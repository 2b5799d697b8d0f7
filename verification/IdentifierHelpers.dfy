/** Truncating, ranging and thresholding a list of brightnesses. */
module IdentifierHelpers {
  import opened Types

  /** Drops samples from the front until at most n are left. */
  method TruncateBrightnessListTo(brightnesses: seq<real>, n: nat) returns (kept: seq<real>)
    ensures kept == LastN(brightnesses, n)
  {
    kept := brightnesses;
    while |kept| > n
      invariant |kept| <= |brightnesses|
      invariant |kept| >= n || kept == brightnesses
      invariant kept == brightnesses[|brightnesses| - |kept|..]
    {
      kept := kept[1..];
    }
  }

  function Dimmest(b: seq<real>): (lo: real)
    requires b != []
    ensures lo in b && forall i :: 0 <= i < |b| ==> lo <= b[i]
  {
    if |b| == 1 then b[0]
    else
      var rest := Dimmest(b[1..]);
      assert forall i :: 1 <= i < |b| ==> b[i] == b[1..][i - 1];
      if b[0] <= rest then b[0] else rest
  }

  function Brightest(b: seq<real>): (hi: real)
    requires b != []
    ensures hi in b && forall i :: 0 <= i < |b| ==> b[i] <= hi
  {
    if |b| == 1 then b[0]
    else
      var rest := Brightest(b[1..]);
      assert forall i :: 1 <= i < |b| ==> b[i] == b[1..][i - 1];
      if rest <= b[0] then b[0] else rest
  }

  /** Where the extrema are. */
  lemma ExtremaPlaces(b: seq<real>) returns (brightest: nat, dimmest: nat)
    requires b != []
    ensures brightest < |b| && b[brightest] == Brightest(b) && forall k :: 0 <= k < |b| ==> b[k] <= b[brightest]
    ensures dimmest < |b| && b[dimmest] == Dimmest(b) && forall k :: 0 <= k < |b| ==> b[dimmest] <= b[k]
  {
    var hi, lo := Brightest(b), Dimmest(b);
    brightest :| 0 <= brightest < |b| && b[brightest] == hi;
    dimmest :| 0 <= dimmest < |b| && b[dimmest] == lo;
  }

  function Threshold(b: seq<real>): real
    requires b != []
  {
    (Dimmest(b) + Brightest(b)) / 2.0
  }

  /** '*' for a bright sample and '.' for a dim one. */
  function Bits(b: seq<real>, threshold: real): (bits: string)
    ensures |bits| == |b|
    ensures forall i :: 0 <= i < |b| ==> bits[i] == if b[i] >= threshold then '*' else '.'
  {
    seq(|b|, i requires 0 <= i < |b| => if b[i] >= threshold then '*' else '.')
  }

  function Spread(b: seq<real>): real
    requires b != []
  {
    Brightest(b) - Dimmest(b)
  }

  /** A window whose samples are not all equal thresholds to both symbols. */
  lemma BothSymbols(b: seq<real>)
    requires b != [] && Spread(b) > 0.0
    ensures '*' in Bits(b, Threshold(b)) && '.' in Bits(b, Threshold(b))
  {
    var bits := Bits(b, Threshold(b));
    var i :| 0 <= i < |b| && b[i] == Brightest(b);
    var j :| 0 <= j < |b| && b[j] == Dimmest(b);
    assert bits[i] == '*' && bits[j] == '.';
  }

  /** The extrema depend on which samples occur, not on their order. */
  lemma ExtremaOfSameSamples(b: seq<real>, c: seq<real>)
    requires b != [] && c != []
    requires forall x :: x in b <==> x in c
    ensures Dimmest(b) == Dimmest(c) && Brightest(b) == Brightest(c)
  {
    assert Dimmest(b) in c && Dimmest(c) in b;
    assert Brightest(b) in c && Brightest(c) in b;
  }

  function Rescale(b: seq<real>, a: real, c: real): (r: seq<real>)
    ensures |r| == |b| && forall i :: 0 <= i < |b| ==> r[i] == a * b[i] + c
  {
    seq(|b|, i requires 0 <= i < |b| => a * b[i] + c)
  }

  lemma ScaleMonotone(a: real, c: real, x: real, y: real)
    requires a > 0.0
    ensures x <= y <==> a * x + c <= a * y + c
  {
    assert x <= y ==> a * (y - x) >= 0.0;
    assert x > y ==> a * (x - y) > 0.0;
  }

  lemma MidpointScales(a: real, c: real, lo: real, hi: real, x: real, lo': real, hi': real, x': real)
    requires a > 0.0
    requires lo' == a * lo + c && hi' == a * hi + c && x' == a * x + c
    ensures x >= (lo + hi) / 2.0 <==> x' >= (lo' + hi') / 2.0
  {
    ScaleMonotone(a, c, (lo + hi) / 2.0, x);
    assert (lo' + hi') / 2.0 == a * ((lo + hi) / 2.0) + c;
  }

  /** Lists ordered alike have their extrema in the same places. */
  lemma ExtremaInSamePlaces(b: seq<real>, r: seq<real>) returns (i: nat, j: nat)
    requires b != [] && SameLevels(b, r)
    ensures i < |b| && b[i] == Dimmest(b) && r[i] == Dimmest(r)
    ensures j < |b| && b[j] == Brightest(b) && r[j] == Brightest(r)
  {
    j, i := ExtremaPlaces(b);
    forall k | 0 <= k < |b| ensures r[i] <= r[k] <= r[j] {
      assert SameOrder(b, r, i, k) && SameOrder(b, r, k, j);
    }
    IsDimmest(r, i);
    IsBrightest(r, j);
  }

  lemma IsDimmest(b: seq<real>, i: nat)
    requires i < |b| && forall k :: 0 <= k < |b| ==> b[i] <= b[k]
    ensures b[i] == Dimmest(b)
  {
  }

  lemma IsBrightest(b: seq<real>, j: nat)
    requires j < |b| && forall k :: 0 <= k < |b| ==> b[k] <= b[j]
    ensures b[j] == Brightest(b)
  {
  }

  predicate SameOrder(b: seq<real>, r: seq<real>, i: nat, j: nat)
    requires |r| == |b| && i < |b| && j < |b|
  {
    b[i] <= b[j] ==> r[i] <= r[j]
  }

  predicate SameSide(b: seq<real>, r: seq<real>, i: nat, j: nat, k: nat)
    requires |r| == |b| && i < |b| && j < |b| && k < |b|
  {
    b[k] >= (b[i] + b[j]) / 2.0 <==> r[k] >= (r[i] + r[j]) / 2.0
  }

  /** r is thresholded like b: both are ordered alike, and the same samples
      reach the midpoint of any two others. */
  ghost predicate SameLevels(b: seq<real>, r: seq<real>) {
    && |r| == |b|
    && (forall i: nat, j: nat {:trigger SameOrder(b, r, i, j)} :: i < |b| && j < |b| ==> SameOrder(b, r, i, j))
    && (forall i: nat, j: nat, k: nat {:trigger SameSide(b, r, i, j, k)} ::
          i < |b| && j < |b| && k < |b| ==> SameSide(b, r, i, j, k))
  }

  lemma SameLevelsSameBits(b: seq<real>, r: seq<real>)
    requires b != [] && SameLevels(b, r)
    ensures Bits(r, Threshold(r)) == Bits(b, Threshold(b))
  {
    var i, j := ExtremaInSamePlaces(b, r);
    forall k | 0 <= k < |b| ensures Bits(r, Threshold(r))[k] == Bits(b, Threshold(b))[k] {
      assert SameSide(b, r, i, j, k);
    }
  }

  lemma RescaledSameLevels(b: seq<real>, r: seq<real>, a: real, c: real)
    requires a > 0.0 && |r| == |b| && forall i :: 0 <= i < |b| ==> r[i] == a * b[i] + c
    ensures SameLevels(b, r)
  {
    forall i: nat, j: nat | i < |b| && j < |b| ensures SameOrder(b, r, i, j) {
      ScaleMonotone(a, c, b[i], b[j]);
    }
    forall i: nat, j: nat, k: nat | i < |b| && j < |b| && k < |b| ensures SameSide(b, r, i, j, k) {
      MidpointScales(a, c, b[i], b[j], b[k], r[i], r[j], r[k]);
    }
  }

  /** An increasing affine map leaves the bits as they are. */
  lemma BitsOfRescaled(b: seq<real>, a: real, c: real)
    requires b != [] && a > 0.0
    ensures Bits(Rescale(b, a, c), Threshold(Rescale(b, a, c))) == Bits(b, Threshold(b))
  {
    RescaledSameLevels(b, Rescale(b, a, c), a, c);
    SameLevelsSameBits(b, Rescale(b, a, c));
  }
}
