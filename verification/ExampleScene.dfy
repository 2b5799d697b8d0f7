/** A shared scene that meets all conditions, of any length: two sensors, three moving beacons and a steady
    light that moves with them. */
module ExampleScene {
  import opened Types
  import opened Rotations
  import opened LedIdentifier
  import opened Matching
  import opened PoseModel
  import opened SensorModel
  import opened SensorRun
  import opened Blinking
  import opened SharedScene

  const TWO := "**.."
  const ONE := "*..."
  const THREE := "***."

  function Setups(est0: EstimatorState, est1: EstimatorState): (setups: seq<Setup>)
    ensures |setups| == 2
  {
    [Setup([TWO, ONE], Identifier(4, [Wrap(TWO), Wrap(ONE)]), est0),
     Setup([THREE], Identifier(4, [Wrap(THREE)]), est1)]
  }

  const SOURCES: seq<Source> := [Blinker(0, 0, 0), Blinker(0, 1, 2), Blinker(1, 0, 1), Still]

  /** The code of the i-th source; the steady light is dim throughout. */
  function Code(i: nat): (code: string)
    ensures |code| == 4
  {
    if i == 0 then TWO else if i == 1 then ONE else if i == 2 then THREE else "...."
  }

  function Phase(i: nat): nat {
    if i == 1 then 2 else if i == 2 then 1 else 0
  }

  function PlaceOf(step: real, i: nat, f: nat): Point2 {
    Point2(f as real * step, i as real)
  }

  /** All lights move at the greatest speed the tracker allows, and grow brighter all the time. */
  function BlobOf(step: real, i: nat, f: nat): LedMeasurement {
    LedMeasurement(PlaceOf(step, i, f),
                   f as real * 0.1 + if Code(i)[(Phase(i) + f) % 4] == '*' then 1.0 else 0.0,
                   1.0)
  }

  /** The order of the blobs is reversed from frame to frame. */
  function Order(f: nat): (order: seq<nat>)
    ensures |order| == 4 && forall i :: 0 <= i < 4 ==> order[i] < 4 && order[order[i]] == i
  {
    if f % 2 == 0 then [0, 1, 2, 3] else [3, 2, 1, 0]
  }

  function Blobs(step: real, f: nat): (blobs: seq<LedMeasurement>)
    ensures |blobs| == 4
    ensures forall k :: 0 <= k < 4 ==> blobs[k] == BlobOf(step, Order(f)[k], f)
    ensures forall i :: 0 <= i < 4 ==> blobs[Order(f)[i]] == BlobOf(step, i, f)
  {
    var order := Order(f);
    seq(4, k requires 0 <= k < 4 => BlobOf(step, order[k], f))
  }

  function Shots(step: real, n: nat, input: FrameInput): (shots: seq<Shot>)
    ensures |shots| == n && forall f :: 0 <= f < n ==> shots[f] == Shot(Blobs(step, f), [input, input])
  {
    seq(n, f requires 0 <= f < n => Shot(Blobs(step, f), [input, input]))
  }

  function Orders(n: nat): (at: seq<seq<nat>>)
    ensures |at| == n && forall f :: 0 <= f < n ==> at[f] == Order(f)
  {
    seq(n, f requires 0 <= f < n => Order(f))
  }

  // ----- The codes

  lemma RotationKeepsMultiset(s: string, t: string)
    requires IsRotation(s, t)
    ensures multiset(s) == multiset(t)
  {
    var k :| 0 <= k <= |t| && s == Rotate(t, k);
    assert t == t[..k] + t[k..];
  }

  lemma CodesDiffer()
    ensures !IsRotation(ONE, TWO) && !IsRotation(TWO, ONE)
    ensures !IsRotation(ONE, THREE) && !IsRotation(THREE, ONE)
    ensures !IsRotation(TWO, THREE) && !IsRotation(THREE, TWO)
  {
    assert multiset(ONE)['*'] == 1 && multiset(TWO)['*'] == 2 && multiset(THREE)['*'] == 3;
    forall s, t | s in [ONE, TWO, THREE] && t in [ONE, TWO, THREE] && IsRotation(s, t)
      ensures multiset(s) == multiset(t)
    {
      RotationKeepsMultiset(s, t);
    }
  }

  lemma CodesBlink()
    ensures Enabled(ONE) && Enabled(TWO) && Enabled(THREE)
    ensures ShowsBoth(ONE) && ShowsBoth(TWO) && ShowsBoth(THREE)
  {
    assert ONE[0] == TWO[0] == THREE[0] == '*' && ONE[3] == TWO[3] == THREE[3] == '.';
  }

  lemma SetupsReady(est0: EstimatorState, est1: EstimatorState)
    requires est0.rig.Consistent() && est1.rig.Consistent()
    ensures forall t :: 0 <= t < 2 ==> Ready(Setups(est0, est1)[t])
  {
    CodesBlink();
    assert Enabled([TWO, ONE][0]) && Enabled([THREE][0]);
  }

  /** The i-th source has the only pattern of either table that its code is a rotation of. */
  lemma CodeRecognisable(est0: EstimatorState, est1: EstimatorState, i: nat)
    requires est0.rig.Consistent() && est1.rig.Consistent() && i < 3
    ensures Recognisable(Setups(est0, est1), SOURCES[i].sensor, SOURCES[i].id)
  {
    CodesBlink();
    CodesDiffer();
    SetupsReady(est0, est1);
    RecognisableIff(Setups(est0, est1), SOURCES[i].sensor, SOURCES[i].id);
  }

  lemma CodesRecognisable(est0: EstimatorState, est1: EstimatorState)
    requires est0.rig.Consistent() && est1.rig.Consistent()
    ensures AllRecognisable(Setups(est0, est1), SOURCES)
  {
    CodeRecognisable(est0, est1, 0);
    CodeRecognisable(est0, est1, 1);
    CodeRecognisable(est0, est1, 2);
  }

  // ----- The brightnesses

  /** A drifting level with a step of one on top follows the code in windows of four. */
  lemma DriftFollows(bright: seq<bool>, b: seq<real>)
    requires |bright| == |b| && forall f :: 0 <= f < |b| ==> b[f] == f as real * 0.1 + if bright[f] then 1.0 else 0.0
    ensures Follows(bright, b, 4)
  {
  }

  lemma BrightnessesOf(step: real, n: nat, input: FrameInput, i: nat)
    requires i < 4
    ensures Shows(SOURCES, Orders(n), Shots(step, n, input))
    ensures var b := SourceBrightnesses(SOURCES, Orders(n), Shots(step, n, input), i);
      forall f :: 0 <= f < n ==> b[f] == BlobOf(step, i, f).brightness
  {
  }

  lemma SourceCode(est0: EstimatorState, est1: EstimatorState, i: nat)
    requires i < 3
    ensures var source, setups := SOURCES[i], Setups(est0, est1);
      && source.Blinker? && source.sensor < 2 && source.id < |setups[source.sensor].pats|
      && setups[source.sensor].pats[source.id] == Code(i) && source.phase == Phase(i)
  {
  }

  lemma BeaconPlausible(setups: seq<Setup>, source: Source, code: string, b: seq<real>)
    requires source.Blinker? && source.sensor < |setups| && source.id < |setups[source.sensor].pats|
    requires setups[source.sensor].pats[source.id] == code && code != ""
    requires Follows(Shown(code, source.phase, |b|), b, 4)
    ensures Plausible(setups, source, 4, b)
  {
  }

  lemma StillPlausible(setups: seq<Setup>, b: seq<real>)
    requires forall f :: 0 <= f < |b| ==> b[f] == f as real * 0.1
    ensures Plausible(setups, Still, 4, b)
  {
  }

  lemma SourcesPlausible(est0: EstimatorState, est1: EstimatorState, i: nat, b: seq<real>)
    requires i < 4
    requires forall f :: 0 <= f < |b| ==> b[f] == f as real * 0.1 + if Code(i)[(Phase(i) + f) % 4] == '*' then 1.0 else 0.0
    ensures Plausible(Setups(est0, est1), SOURCES[i], 4, b)
  {
    if i < 3 {
      DriftFollows(Shown(Code(i), Phase(i), |b|), b);
      SourceCode(est0, est1, i);
      BeaconPlausible(Setups(est0, est1), SOURCES[i], Code(i), b);
    } else {
      StillPlausible(Setups(est0, est1), b);
    }
  }

  // ----- The motion

  lemma Distance(p: Point2, q: Point2, step: real, d: real)
    requires q.x - p.x == step && q.y - p.y == d
    ensures DistSquared(p, q) == step * step + d * d
  {
  }

  lemma SquarePositive(x: real)
    ensures if x == 0.0 then x * x == 0.0 else x * x > 0.0
  {
  }

  lemma OneStep(step: real, f: nat)
    ensures (f + 1) as real * step - f as real * step == step
  {
    assert (f + 1) as real == f as real + 1.0;
  }

  lemma PlaceDistance(step: real, i: nat, j: nat, f: nat)
    ensures DistSquared(PlaceOf(step, i, f), PlaceOf(step, j, f + 1)) >= step * step
    ensures DistSquared(PlaceOf(step, i, f), PlaceOf(step, j, f + 1)) == step * step <==> i == j
  {
    var d := j as real - i as real;
    OneStep(step, f);
    Distance(PlaceOf(step, i, f), PlaceOf(step, j, f + 1), step, d);
    SquarePositive(d);
  }

  lemma OwnIsNearest(step: real, i: nat, j: nat, f: nat)
    requires i != j
    ensures Nearer(BlobOf(step, i, f), BlobOf(step, i, f + 1), BlobOf(step, j, f + 1))
  {
    PlaceDistance(step, i, i, f);
    PlaceDistance(step, i, j, f);
  }

  lemma OwnIsInReach(params: Params, i: nat, f: nat)
    ensures InReach(params, BlobOf(params.blobMoveThreshold, i, f), BlobOf(params.blobMoveThreshold, i, f + 1))
  {
    PlaceDistance(params.blobMoveThreshold, i, i, f);
    assert MoveThreshold(params, BlobOf(params.blobMoveThreshold, i, f)) == params.blobMoveThreshold;
  }

  lemma OrderIsTrue(params: Params, seen: seq<LedMeasurement>, blobs: seq<LedMeasurement>, order: seq<nat>, f: nat)
    requires |seen| == |blobs| == |order| == 4
    requires forall i :: 0 <= i < 4 ==> order[i] < 4 && order[order[i]] == i
    requires forall i :: 0 <= i < 4 ==> seen[i] == BlobOf(params.blobMoveThreshold, i, f)
    requires forall k :: 0 <= k < 4 ==> blobs[k] == BlobOf(params.blobMoveThreshold, order[k], f + 1)
    ensures TrueAssignment(params, seen, blobs, order)
  {
    var step := params.blobMoveThreshold;
    forall i | 0 <= i < 4 ensures InReach(params, seen[i], blobs[order[i]]) {
      OwnIsInReach(params, i, f);
    }
    forall i, k | 0 <= i < 4 && 0 <= k < 4 && k != order[i] ensures Nearer(seen[i], blobs[order[i]], blobs[k]) {
      OwnIsNearest(step, i, order[k], f);
    }
  }

  lemma SeenAre(step: real, n: nat, input: FrameInput, f: nat)
    requires f < n
    ensures Shows(SOURCES, Orders(n), Shots(step, n, input))
    ensures var seen := SourcesSeen(SOURCES, Orders(n), Shots(step, n, input), f);
      |seen| == 4 && forall i :: 0 <= i < 4 ==> seen[i] == BlobOf(step, i, f)
  {
  }

  lemma SourcesFollowed(params: Params, n: nat, input: FrameInput, f: nat)
    requires 0 < f < n
    ensures Shows(SOURCES, Orders(n), Shots(params.blobMoveThreshold, n, input))
    ensures var shots := Shots(params.blobMoveThreshold, n, input);
      TrueAssignment(params, SourcesSeen(SOURCES, Orders(n), shots, f - 1), shots[f].blobs, Orders(n)[f])
  {
    var step := params.blobMoveThreshold;
    SeenAre(step, n, input, f - 1);
    OrderIsTrue(params, SourcesSeen(SOURCES, Orders(n), Shots(step, n, input), f - 1), Blobs(step, f), Order(f), f - 1);
  }

  lemma AllPlausible(est0: EstimatorState, est1: EstimatorState, step: real, n: nat, input: FrameInput)
    ensures Shows(SOURCES, Orders(n), Shots(step, n, input))
    ensures var setups := Setups(est0, est1);
      forall t, i :: 0 <= t < |setups| && 0 <= i < |SOURCES| ==>
        Plausible(setups, SOURCES[i], setups[t].identifier.length, SourceBrightnesses(SOURCES, Orders(n), Shots(step, n, input), i))
  {
    BrightnessesOf(step, n, input, 0);
    forall i | 0 <= i < |SOURCES|
      ensures Plausible(Setups(est0, est1), SOURCES[i], 4, SourceBrightnesses(SOURCES, Orders(n), Shots(step, n, input), i))
    {
      BrightnessesOf(step, n, input, i);
      SourcesPlausible(est0, est1, i, SourceBrightnesses(SOURCES, Orders(n), Shots(step, n, input), i));
    }
  }

  /** Scenes of every length meet the conditions of the end-to-end result, whatever the estimators and the configuration. */
  lemma ExampleIsClear(params: Params, est0: EstimatorState, est1: EstimatorState, n: nat, input: FrameInput)
    requires est0.rig.Consistent() && est1.rig.Consistent()
    ensures AllClear(params, Setups(est0, est1), SOURCES, Orders(n), Shots(params.blobMoveThreshold, n, input))
  {
    var setups, at, shots := Setups(est0, est1), Orders(n), Shots(params.blobMoveThreshold, n, input);
    SetupsReady(est0, est1);
    CodesRecognisable(est0, est1);
    BrightnessesOf(params.blobMoveThreshold, n, input, 0);
    AllPlausible(est0, est1, params.blobMoveThreshold, n, input);
    AllFollowed(params, n, input);
    MeetsAll(params, setups, SOURCES, at, shots);
  }

  lemma AllFollowed(params: Params, n: nat, input: FrameInput)
    ensures Shows(SOURCES, Orders(n), Shots(params.blobMoveThreshold, n, input))
    ensures var shots := Shots(params.blobMoveThreshold, n, input);
      forall f :: 0 < f < n ==> TrueAssignment(params, SourcesSeen(SOURCES, Orders(n), shots, f - 1), shots[f].blobs, Orders(n)[f])
  {
    BrightnessesOf(params.blobMoveThreshold, n, input, 0);
    forall f | 0 < f < n
      ensures var shots := Shots(params.blobMoveThreshold, n, input);
        TrueAssignment(params, SourcesSeen(SOURCES, Orders(n), shots, f - 1), shots[f].blobs, Orders(n)[f])
    {
      SourcesFollowed(params, n, input, f);
    }
  }

  lemma MeetsAll(params: Params, setups: seq<Setup>, sources: seq<Source>, at: seq<seq<nat>>, shots: seq<Shot>)
    requires forall t :: 0 <= t < |setups| ==> Ready(setups[t])
    requires AllRecognisable(setups, sources) && Shows(sources, at, shots) && ForAll(shots, |setups|)
    requires forall t, i :: 0 <= t < |setups| && 0 <= i < |sources| ==>
               Plausible(setups, sources[i], setups[t].identifier.length, SourceBrightnesses(sources, at, shots, i))
    requires shots != [] ==> forall i :: 0 <= i < |sources| ==> at[0][i] == i
    requires forall f :: 0 < f < |shots| ==>
               TrueAssignment(params, SourcesSeen(sources, at, shots, f - 1), shots[f].blobs, at[f])
    ensures AllClear(params, setups, sources, at, shots)
  {
  }
}
