/** A longest streak of bad passes: a sensor that identifies its LEDs, gets a pose, and then finds them all off. */
module ProbationStreak {
  import opened Types
  import opened Rotations
  import opened LedIdentifier
  import opened LedModel
  import opened Matching
  import opened Vectors
  import opened PoseModel
  import PoseHistory
  import opened SensorModel
  import opened SensorRun
  import opened SensorCalls
  import opened Blinking
  import opened Identification

  const CODE := "*."

  function Identity(): (d: Decoder)
    ensures d == Identifier(2, [Wrap(CODE)])
  {
    Identifier(2, [Wrap(CODE)])
  }

  /** How many LEDs are in view: as many as the solver needs, and at least one. */
  function Count(requiredInliers: nat, permittedOutliers: nat): (m: nat)
    ensures m >= 1 && m >= requiredInliers + permittedOutliers
  {
    requiredInliers + permittedOutliers + 1
  }

  function PlaceOf(i: nat): Point2 {
    Point2(i as real, 0.0)
  }

  function BlobOf(i: nat, f: nat): LedMeasurement {
    LedMeasurement(PlaceOf(i), if f % 2 == 0 then 1.0 else 0.0, 1.0)
  }

  /** A report without an error: all points are inliers and reproject exactly. */
  function Perfect(m: nat): Ransac {
    Ransac(true, Indices(m), (i: nat) => PlaceOf(i))
  }

  const AXIS: Vec3 := Vec3(0.0, 0.0, 1.0)

  /** The only beacon faces the camera well enough. */
  function Facing(params: Params): Vec3 {
    Vec3(0.0, 0.0, if params.maxZComponent < 0.0 then params.maxZComponent else 0.0)
  }

  /** All residuals are too large; the solver fails on the first frame only. */
  function InputOf(params: Params, m: nat, f: nat): Input {
    Input(f as real, AXIS, i => params.maxResidual * params.maxResidual + 1.0,
          if f == 0 then Ransac(false, [], (i: nat) => PlaceOf(i)) else Perfect(m))
  }

  /** n frames with m LEDs that all blink the code of the only beacon. */
  function Frames(params: Params, m: nat, n: nat): (frames: seq<Frame>)
    ensures |frames| == n
    ensures forall f :: 0 <= f < n ==> frames[f].input.estimate == InputOf(params, m, f) && |frames[f].blobs| == m
    ensures forall f, i :: 0 <= f < n && 0 <= i < m ==> frames[f].blobs[i] == BlobOf(i, f)
  {
    seq(n, (f: nat) => Frame(seq(m, (i: nat) => BlobOf(i, f)), FrameInput(k => 0, InputOf(params, m, f))))
  }

  function SceneOf(m: nat, n: nat): Scene {
    Scene([CODE], seq(m, i => Beacon(0, 0)), seq(n, f => Indices(m)))
  }

  function NewEstimator(params: Params, requiredInliers: nat, permittedOutliers: nat): (est: EstimatorState)
    ensures est.rig.Consistent()
  {
    NewSensor(params, Given(params), requiredInliers, permittedOutliers).est
  }

  function Given(params: Params): BeaconSet {
    BeaconSet([AXIS], [Facing(params)], [1.0], i => true)
  }

  lemma FramesPrefix(params: Params, m: nat, n: nat, k: nat)
    requires k <= n
    ensures Frames(params, m, n)[..k] == Frames(params, m, k)
  {
  }

  // ----- The LEDs are identified

  lemma CodeUnmistakable()
    ensures Unmistakable([CODE], 0) && MadeFrom(Identity(), [CODE])
  {
    assert CODE[0] == '*' && CODE[1] == '.';
    assert Enabled([CODE][0]);
  }

  lemma StepFollows(bright: seq<bool>, b: seq<real>)
    requires |bright| == |b| && forall f :: 0 <= f < |b| ==> b[f] == if bright[f] then 1.0 else 0.0
    ensures Follows(bright, b, 2)
  {
  }

  lemma BlinkFollows(b: seq<real>)
    requires forall f :: 0 <= f < |b| ==> b[f] == if f % 2 == 0 then 1.0 else 0.0
    ensures Follows(Shown(CODE, 0, |b|), b, 2)
  {
    var bright := Shown(CODE, 0, |b|);
    assert forall f :: 0 <= f < |b| ==> bright[f] == (CODE[(0 + f) % 2] == '*');
    StepFollows(bright, b);
  }

  lemma Apart(i: nat, k: nat)
    ensures DistSquared(PlaceOf(i), PlaceOf(i)) == 0.0
    ensures i != k ==> DistSquared(PlaceOf(i), PlaceOf(k)) > 0.0
  {
    var d := i as real - k as real;
    if i != k {
      assert d != 0.0;
      assert d * d > 0.0;
    }
  }

  lemma SceneIsTrue(params: Params, m: nat, n: nat, f: nat)
    requires 0 < f < n
    ensures WellFormed(SceneOf(m, n), Frames(params, m, n))
    ensures TrueAssignment(params, Seen(SceneOf(m, n), Frames(params, m, n), f - 1), Frames(params, m, n)[f].blobs, Indices(m))
  {
    var seen, blobs := Seen(SceneOf(m, n), Frames(params, m, n), f - 1), Frames(params, m, n)[f].blobs;
    forall i | 0 <= i < m ensures InReach(params, seen[i], blobs[i]) {
      Apart(i, i);
      var t := MoveThreshold(params, seen[i]);
      assert t * t >= 0.0;
    }
    forall i, k | 0 <= i < m && 0 <= k < m && k != i ensures Nearer(seen[i], blobs[i], blobs[k]) {
      Apart(i, k);
    }
  }

  lemma SceneIsClear(params: Params, m: nat, n: nat)
    ensures Clear(params, 2, SceneOf(m, n), Frames(params, m, n))
  {
    var scene, frames := SceneOf(m, n), Frames(params, m, n);
    CodeUnmistakable();
    forall i | 0 <= i < m ensures ClearLight(scene, 2, frames, i) {
      BlinkFollows(Brightnesses(scene, frames, i));
    }
    forall f | 0 < f < n ensures TrueAssignment(params, Seen(scene, frames, f - 1), frames[f].blobs, scene.at[f]) {
      SceneIsTrue(params, m, n, f);
    }
  }

  // ----- No LED is refuted, and none is good

  ghost predicate Usable(params: Params, est: EstimatorState) {
    est.rig.params == params && est.rig.numBeacons == 1 && est.rig.emission == [Facing(params)]
  }

  lemma JudgedBad(rig: Rig, input: Input, skipBright: bool, led: LedState, i: nat)
    requires rig.Consistent() && input.residualSquared(i) > rig.params.maxResidual * rig.params.maxResidual
    requires InRange(led, rig.numBeacons) ==>
               Dot(input.rotationZ, rig.emission[led.id]) <= 0.0 && Dot(input.rotationZ, rig.emission[led.id]) <= rig.params.maxZComponent
    ensures var v := Judge(rig, input, skipBright, led, i); v.Ignored? || v.BrightSkipped? || v.UsedBad?
  {
  }

  lemma Judged(params: Params, est: EstimatorState, m: nat, f: nat, skipBright: bool, led: LedState, i: nat)
    requires Usable(params, est)
    ensures var v := Judge(est.rig, InputOf(params, m, f), skipBright, led, i); v.Ignored? || v.BrightSkipped? || v.UsedBad?
  {
    AlongAxis(Facing(params));
    JudgedBad(est.rig, InputOf(params, m, f), skipBright, led, i);
  }

  lemma AlongAxis(v: Vec3)
    ensures Dot(AXIS, v) == v.z
  {
  }

  lemma NoneRefuted(params: Params, est: EstimatorState, m: nat, n: nat, i: nat)
    requires Usable(params, est) && n > 0
    ensures !RefutedLast(params, Some(Identity()), est, Frames(params, m, n), i)
  {
    var leds := MatchedLast(params, Some(Identity()), est, Frames(params, m, n));
    if i < |leds| {
      Judged(params, est, m, n - 1, SkipBright(est.rig, leds), leds[i], i);
    }
  }

  /** What the LEDs are before the estimate of the last frame. */
  lemma MatchedAre(params: Params, est: EstimatorState, m: nat, n: nat)
    requires Usable(params, est) && n > 0
    ensures var leds := MatchedLast(params, Some(Identity()), est, Frames(params, m, n));
      |leds| == m && forall i :: 0 <= i < m ==>
        leds[i].latest.loc == PlaceOf(i) && leds[i].id == if n >= 2 then 0 else NO_IDENTIFIER_OR_INSUFFICIENT_DATA
  {
    var d, frames, scene := Identity(), Frames(params, m, n), SceneOf(m, n);
    SceneIsClear(params, m, n);
    CodeUnmistakable();
    IdentifiesBeacons(params, d, est, scene, frames);
    LedsStep(params, Some(d), est, frames);
    var leds := MatchedLast(params, Some(d), est, frames);
    assert |leds| == |Run(params, Some(d), est, frames).leds| == m;
    forall i | 0 <= i < m
      ensures leds[i].latest.loc == PlaceOf(i) && leds[i].id == if n >= 2 then 0 else NO_IDENTIFIER_OR_INSUFFICIENT_DATA
    {
      MatchedIs(params, est, m, n, i);
    }
  }

  lemma MatchedIs(params: Params, est: EstimatorState, m: nat, n: nat, i: nat)
    requires Usable(params, est) && n > 0 && i < m
    requires WellFormed(SceneOf(m, n), Frames(params, m, n))
    requires var frames := Frames(params, m, n);
      var leds := Run(params, Some(Identity()), est, frames).leds;
      && leds == MarkAll(MatchedLast(params, Some(Identity()), est, frames), LastVerdicts(params, Some(Identity()), est, frames))
      && |leds| == m && Latest(leds) == Seen(SceneOf(m, n), frames, n - 1)
      && Carries(Identity(), Beacon(0, 0), Age(params, Some(Identity()), est, frames, i), leds[i].id)
    ensures var led := MatchedLast(params, Some(Identity()), est, Frames(params, m, n))[i];
      led.latest.loc == PlaceOf(i) && led.id == if n >= 2 then 0 else NO_IDENTIFIER_OR_INSUFFICIENT_DATA
  {
    var frames := Frames(params, m, n);
    forall k | 0 < k <= n ensures !RefutedLast(params, Some(Identity()), est, frames[..k], i) {
      FramesPrefix(params, m, n, k);
      NoneRefuted(params, est, m, k, i);
    }
    AgeUnrefuted(params, Identity(), est, frames, i);
    NoneRefuted(params, est, m, n, i);
    assert Latest(Run(params, Some(Identity()), est, frames).leds)[i] == BlobOf(i, n - 1);
  }

  // ----- The streak

  lemma {:induction false} AllInRange(leds: seq<LedState>)
    requires forall i :: 0 <= i < |leds| ==> leds[i].id == 0
    ensures InRangeLeds(leds, 1) == leds
  {
    if leds != [] {
      AllInRange(leds[1..]);
      assert leds == [leds[0]] + leds[1..];
    }
  }

  lemma {:induction false} TallyNone(verdicts: seq<Verdict>, v: Verdict)
    requires forall i :: 0 <= i < |verdicts| ==> verdicts[i] != v
    ensures Tally(verdicts, v) == 0
  {
    if verdicts != [] {
      TallyNone(verdicts[..|verdicts| - 1], v);
    }
  }

  /** Whether or not bright LEDs are skipped, only bad ones are used. */
  lemma OnlyBad(params: Params, est: EstimatorState, m: nat, f: nat, leds: seq<LedState>)
    requires Usable(params, est) && leds != [] && forall i :: 0 <= i < |leds| ==> leds[i].id == 0
    ensures var v := Verdicts(est.rig, InputOf(params, m, f), leds); NumBad(v) > 0 && NumGood(v) == 0
  {
    var v := Verdicts(est.rig, InputOf(params, m, f), leds);
    forall i | 0 <= i < |leds| ensures v[i].Ignored? || v[i].BrightSkipped? || v[i].UsedBad? {
      Judged(params, est, m, f, SkipBright(est.rig, leds), leds[i], i);
    }
    TallyNone(v, ObliqueSkipped);
    TallyNone(v, UsedGood);
    AllInRange(leds);
    PoseHistory.SkippingLeavesFive(est.rig, InputOf(params, m, f), leds);
  }

  /** On the Kalman path, and this long in probation. */
  ghost predicate InStreak(params: Params, est: EstimatorState, k: nat) {
    && Usable(params, est) && est.gotPose && est.gotPrev && est.permitKalman && est.gotMeasurement
    && est.probation == k && est.withoutMeasurements == 0 && est.withoutBlobs == 0
  }

  lemma StreakGoesOn(params: Params, est: EstimatorState, k: nat, m: nat, f: nat, leds: seq<LedState>)
    requires InStreak(params, est, k) && k <= MAX_PROBATION_FRAMES
    requires leds != [] && forall i :: 0 <= i < |leds| ==> leds[i].id == 0
    ensures PoseHistory.BadPass(est, InputOf(params, m, f), leds) && InStreak(params, Estimate(est, InputOf(params, m, f), leds), k + 1)
  {
    OnlyBad(params, est, m, f, leds);
    AllInRange(leds);
  }

  lemma SolverSucceeds(params: Params, est: EstimatorState, m: nat, leds: seq<LedState>)
    requires Usable(params, est) && m >= est.rig.requiredInliers + est.rig.permittedOutliers && |leds| == m
    requires forall i :: 0 <= i < m ==> leds[i].id == 0 && leds[i].latest.loc == PlaceOf(i)
    ensures RansacSucceeds(est.rig, Perfect(m), leds)
  {
    AllInRange(leds);
    var points := ImagePoints(leds, 1);
    DistinctAreNamed(Indices(m), m);
    assert InlierRows(Perfect(m), points) == m;
  }

  /** A new estimator whose solver fails once and then succeeds is on the Kalman path. */
  lemma StreakStarts(params: Params, est: EstimatorState, m: nat, leds0: seq<LedState>, leds1: seq<LedState>)
    requires Usable(params, est) && !est.gotPose && est.permitKalman
    requires est.probation == est.withoutMeasurements == est.withoutBlobs == 0
    requires m >= est.rig.requiredInliers + est.rig.permittedOutliers && |leds1| == m
    requires forall i :: 0 <= i < m ==> leds1[i].id == 0 && leds1[i].latest.loc == PlaceOf(i)
    ensures InStreak(params, Estimate(Estimate(est, InputOf(params, m, 0), leds0), InputOf(params, m, 1), leds1), 0)
  {
    var failed := Estimate(est, InputOf(params, m, 0), leds0);
    assert failed == est.(gotPose := false);
    SolverSucceeds(params, failed, m, leds1);
  }

  /** The calls from frame `first` on are estimates on identified LEDs. */
  ghost predicate OnIdentified(params: Params, m: nat, calls: seq<PoseHistory.Call>, first: nat) {
    forall k :: 0 <= k < |calls| ==> Identifies(params, m, calls[k], first + k)
  }

  ghost predicate Identifies(params: Params, m: nat, call: PoseHistory.Call, f: nat) {
    && call.EstimatePose? && call.input == InputOf(params, m, f)
    && call.leds != [] && forall i :: 0 <= i < |call.leds| ==> call.leds[i].id == 0
  }

  lemma {:induction false} StreakOf(params: Params, est: EstimatorState, m: nat, calls: seq<PoseHistory.Call>, first: nat)
    requires InStreak(params, est, 0) && |calls| <= MAX_PROBATION_FRAMES + 1 && OnIdentified(params, m, calls, first)
    ensures PoseHistory.AllBad(est, calls) && PoseHistory.CountEstimates(calls) == |calls|
    ensures InStreak(params, PoseHistory.Run(est, calls), |calls|)
  {
    if calls != [] {
      var n, init := |calls| - 1, PoseHistory.Init(calls);
      assert Identifies(params, m, calls[n], first + n);
      forall k | 0 <= k < |init| ensures Identifies(params, m, init[k], first + k) {
        assert Identifies(params, m, calls[k], first + k);
      }
      StreakOf(params, est, m, init, first);
      StreakStep(params, PoseHistory.Run(est, init), n, m, first + n, PoseHistory.Last(calls));
    }
  }

  lemma StreakStep(params: Params, est: EstimatorState, k: nat, m: nat, f: nat, call: PoseHistory.Call)
    requires InStreak(params, est, k) && k <= MAX_PROBATION_FRAMES && Identifies(params, m, call, f)
    ensures PoseHistory.BadPass(est, call.input, call.leds) && InStreak(params, PoseHistory.Apply(est, call), k + 1)
  {
    StreakGoesOn(params, est, k, m, f, call.leds);
  }

  // ----- The streak of a sensor

  lemma CallIdentifies(params: Params, est: EstimatorState, m: nat, n: nat)
    requires Usable(params, est) && 2 <= n < 13 && m > 0
    ensures Identifies(params, m, CallsOf(params, Some(Identity()), est, Frames(params, m, 13))[n], n)
  {
    FramesPrefix(params, m, 13, n + 1);
    MatchedAre(params, est, m, n + 1);
  }

  lemma StartingCalls(params: Params, est: EstimatorState, m: nat)
    requires Usable(params, est)
    ensures var calls := CallsOf(params, Some(Identity()), est, Frames(params, m, 13));
      && calls[0].EstimatePose? && calls[0].input == InputOf(params, m, 0)
      && calls[1].EstimatePose? && calls[1].input == InputOf(params, m, 1) && |calls[1].leds| == m
      && forall i :: 0 <= i < m ==> calls[1].leds[i].id == 0 && calls[1].leds[i].latest.loc == PlaceOf(i)
  {
    FramesPrefix(params, m, 13, 2);
    MatchedAre(params, est, m, 2);
  }

  lemma CallsStart(params: Params, est: EstimatorState, m: nat, calls: seq<PoseHistory.Call>)
    requires Usable(params, est) && !est.gotPose && est.permitKalman
    requires est.probation == est.withoutMeasurements == est.withoutBlobs == 0
    requires m >= est.rig.requiredInliers + est.rig.permittedOutliers && |calls| == 2
    requires calls[0].EstimatePose? && calls[0].input == InputOf(params, m, 0)
    requires calls[1].EstimatePose? && calls[1].input == InputOf(params, m, 1) && |calls[1].leds| == m
    requires forall i :: 0 <= i < m ==> calls[1].leds[i].id == 0 && calls[1].leds[i].latest.loc == PlaceOf(i)
    ensures InStreak(params, PoseHistory.Run(est, calls), 0)
  {
    StreakStarts(params, est, m, calls[0].leds, calls[1].leds);
    TwoCalls(est, calls);
  }

  lemma TwoCalls(est: EstimatorState, calls: seq<PoseHistory.Call>)
    requires est.rig.Consistent() && |calls| == 2
    ensures PoseHistory.Run(est, calls) == PoseHistory.Apply(PoseHistory.Apply(est, calls[0]), calls[1])
  {
    var one := PoseHistory.Init(calls);
    assert PoseHistory.Init(one) == [];
    assert PoseHistory.Run(est, one) == PoseHistory.Apply(PoseHistory.Run(est, []), one[0]);
  }

  /** Eleven bad passes in a row do occur, in every configuration, so the bound is tight: a sensor whose LEDs are
      identified by their blinking makes them within thirteen frames. */
  lemma ElevenBadPasses(params: Params, requiredInliers: nat, permittedOutliers: nat)
    returns (d: Decoder, given: BeaconSet, frames: seq<Frame>, calls: seq<PoseHistory.Call>)
    ensures NewSensor(params, given, requiredInliers, permittedOutliers).est.rig.Consistent() && |frames| == 13
    ensures calls == CallsOf(params, Some(d), NewSensor(params, given, requiredInliers, permittedOutliers).est, frames)
    ensures PoseHistory.AllBad(PoseHistory.After(params, requiredInliers, permittedOutliers, [PoseHistory.SetBeacons(given)] + calls[..2]), calls[2..])
    ensures PoseHistory.CountEstimates(calls[2..]) == 11
  {
    var m, est := Count(requiredInliers, permittedOutliers), NewEstimator(params, requiredInliers, permittedOutliers);
    d, given, frames := Identity(), Given(params), Frames(params, m, 13);
    calls := CallsOf(params, Some(d), est, frames);
    StartingCalls(params, est, m);
    CallsStart(params, est, m, calls[..2]);
    forall k | 0 <= k < 11 ensures Identifies(params, m, calls[2..][k], 2 + k) {
      CallIdentifies(params, est, m, 2 + k);
    }
    StreakOf(params, PoseHistory.Run(est, calls[..2]), m, calls[2..], 2);
    AfterBeacons(params, requiredInliers, permittedOutliers, given, calls[..2]);
  }

  lemma AfterBeacons(params: Params, requiredInliers: nat, permittedOutliers: nat, given: BeaconSet, calls: seq<PoseHistory.Call>)
    requires |given.beacons| == |given.emission|
    ensures NewSensor(params, given, requiredInliers, permittedOutliers).est.rig.Consistent()
    ensures PoseHistory.After(params, requiredInliers, permittedOutliers, [PoseHistory.SetBeacons(given)] + calls)
            == PoseHistory.Run(NewSensor(params, given, requiredInliers, permittedOutliers).est, calls)
  {
    var start := Fresh(params, requiredInliers, permittedOutliers);
    var first: seq<PoseHistory.Call> := [PoseHistory.SetBeacons(given)];
    PoseHistory.RunConcat(start, first, calls);
    assert PoseHistory.Init(first) == [];
    assert PoseHistory.Run(start, first) == NewSensor(params, given, requiredInliers, permittedOutliers).est;
  }
}
