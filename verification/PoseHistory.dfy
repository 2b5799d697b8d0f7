/** Properties of the pose estimator over every sequence of calls after its construction. */
module PoseHistory {
  import opened Types
  import opened LedModel
  import opened Matching
  import opened PoseModel
  import opened Vectors

  datatype AnyCall =
    | EstimatePose(input: Input, leds: seq<LedState>)
    | SetBeacons(given: BeaconSet)
    | SetCamera
    | PermitKalman(permit: bool)

  /** `SetBeacons` throws on lists of different lengths; such a call ends the history. */
  predicate Returns(call: AnyCall) {
    call.SetBeacons? ==> |call.given.beacons| == |call.given.emission|
  }

  type Call = call: AnyCall | Returns(call) witness SetCamera

  function Apply(est: EstimatorState, call: Call): (next: EstimatorState)
    requires est.rig.Consistent()
    ensures next.rig.Consistent()
  {
    match call
    case EstimatePose(input, leds) => Estimate(est, input, leds)
    case SetBeacons(given) => est.(gotPose := false, rig := WithBeacons(est.rig, given))
    case SetCamera => est.(gotPose := false)
    case PermitKalman(permit) => est.(permitKalman := permit)
  }

  function Run(est: EstimatorState, calls: seq<Call>): (next: EstimatorState)
    requires est.rig.Consistent()
    ensures next.rig.Consistent()
  {
    if calls == [] then est else Apply(Run(est, Init(calls)), Last(calls))
  }

  function Init<T>(s: seq<T>): seq<T>
    requires s != []
  {
    s[..|s| - 1]
  }

  function Last<T>(s: seq<T>): T
    requires s != []
  {
    s[|s| - 1]
  }

  /** The state after these calls on a newly constructed estimator. */
  function After(params: Params, requiredInliers: nat, permittedOutliers: nat, calls: seq<Call>): (est: EstimatorState)
    ensures est.rig.Consistent()
  {
    Run(Fresh(params, requiredInliers, permittedOutliers), calls)
  }

  lemma {:induction false} RunConcat(est: EstimatorState, a: seq<Call>, b: seq<Call>)
    requires est.rig.Consistent()
    ensures Run(est, a + b) == Run(Run(est, a), b)
  {
    if b == [] {
      assert a + b == a;
    } else {
      assert Init(a + b) == a + Init(b);
      RunConcat(est, a, Init(b));
    }
  }

  // ----- Which path a call takes, read off the history

  /** The latest estimate succeeded and neither beacons nor camera were replaced since. */
  predicate PoseStands(start: EstimatorState, calls: seq<Call>)
    requires start.rig.Consistent()
  {
    calls != [] &&
    match Last(calls)
    case EstimatePose(input, leds) => Succeeds(Run(start, Init(calls)), input, leds)
    case SetBeacons(_) => false
    case SetCamera => false
    case PermitKalman(_) => PoseStands(start, Init(calls))
  }

  predicate Permitted(calls: seq<Call>) {
    calls == [] || if Last(calls).PermitKalman? then Last(calls).permit else Permitted(Init(calls))
  }

  /** The time of the latest estimate that succeeded. */
  function SuccessTime(start: EstimatorState, calls: seq<Call>): real
    requires start.rig.Consistent()
  {
    if calls == [] then start.prev
    else match Last(calls)
      case EstimatePose(input, leds) =>
        if Succeeds(Run(start, Init(calls)), input, leds) then input.tv else SuccessTime(start, Init(calls))
      case _ => SuccessTime(start, Init(calls))
  }

  /** What holds in every reachable state. */
  ghost predicate Sound(est: EstimatorState) {
    && (est.gotPose ==> est.gotPrev && est.gotMeasurement)
    && est.withoutMeasurements == 0
    && est.probation <= MAX_PROBATION_FRAMES + 1
    && (est.withoutBlobs > 0 ==> est.probation == 0)
  }

  lemma {:induction false} NothingInRange(rig: Rig, input: Input, skipBright: bool, leds: seq<LedState>)
    requires rig.Consistent() && InRangeLeds(leds, rig.numBeacons) == []
    ensures var v := JudgeAll(rig, input, skipBright, leds); NumBad(v) == 0 && NumGood(v) == 0
  {
    EveryLedJudged(rig, input, skipBright, leds);
  }

  lemma SoundStep(est: EstimatorState, call: Call)
    requires est.rig.Consistent() && Sound(est)
    ensures Sound(Apply(est, call))
  {
    if call.EstimatePose? && UsesKalman(est, call.leds) && InRangeLeds(call.leds, est.rig.numBeacons) == [] {
      NothingInRange(est.rig, call.input, SkipBright(est.rig, call.leds), call.leds);
    }
  }

  /** The mode flags say what the history says, and every reachable state is sound: a standing pose
      comes with a time stamp and a measurement, the counter of rejected frames never moves,
      and probation stops at eleven. */
  lemma {:induction false} ModeHistory(params: Params, requiredInliers: nat, permittedOutliers: nat, calls: seq<Call>)
    ensures var start, est := Fresh(params, requiredInliers, permittedOutliers), After(params, requiredInliers, permittedOutliers, calls);
      && Sound(est)
      && est.gotPose == PoseStands(start, calls)
      && est.permitKalman == Permitted(calls)
      && est.prev == SuccessTime(start, calls)
  {
    if calls != [] {
      ModeHistory(params, requiredInliers, permittedOutliers, Init(calls));
      SoundStep(After(params, requiredInliers, permittedOutliers, Init(calls)), Last(calls));
      ModeStep(After(params, requiredInliers, permittedOutliers, Init(calls)), Last(calls));
    }
  }

  /** What one call does to the flags. */
  lemma ModeStep(est: EstimatorState, call: Call)
    requires est.rig.Consistent()
    ensures var next := Apply(est, call);
      match call
      case EstimatePose(input, leds) =>
        && next.gotPose == Succeeds(est, input, leds) && next.permitKalman == est.permitKalman
        && next.prev == if Succeeds(est, input, leds) then input.tv else est.prev
      case PermitKalman(permit) => next == est.(permitKalman := permit)
      case _ => !next.gotPose && next.permitKalman == est.permitKalman && next.prev == est.prev
  {
  }

  /** The time step that a call on the Kalman path predicts over. */
  function TimeStep(est: EstimatorState, input: Input): real {
    input.tv - est.prev
  }

  /** A call takes the Kalman path exactly when the pose still stands, Kalman mode is
      permitted and no reset fires; its time step then starts at the latest success. */
  lemma KalmanPathIff(params: Params, requiredInliers: nat, permittedOutliers: nat, calls: seq<Call>, input: Input, leds: seq<LedState>)
    ensures var start, est := Fresh(params, requiredInliers, permittedOutliers), After(params, requiredInliers, permittedOutliers, calls);
      TimeStep(est, input) == input.tv - SuccessTime(start, calls)
    ensures var start, est := Fresh(params, requiredInliers, permittedOutliers), After(params, requiredInliers, permittedOutliers, calls);
      UsesKalman(est, leds) <==> PoseStands(start, calls) && Permitted(calls) && !NeedsReset(est, leds)
  {
    ModeHistory(params, requiredInliers, permittedOutliers, calls);
  }

  /** Every call in which a reset fires goes to the solver and leaves the counters at zero. */
  lemma ResetUsesSolver(params: Params, requiredInliers: nat, permittedOutliers: nat, calls: seq<Call>, input: Input, leds: seq<LedState>)
    requires NeedsReset(After(params, requiredInliers, permittedOutliers, calls), leds)
    ensures var est := After(params, requiredInliers, permittedOutliers, calls);
      var next := Estimate(est, input, leds);
      && !UsesKalman(est, leds)
      && next.probation == next.withoutMeasurements == next.withoutBlobs == 0
      && next.gotPose == RansacSucceeds(est.rig, input.ransac, leds)
      && (est.probation > MAX_PROBATION_FRAMES || est.withoutBlobs > MAX_FRAMES_WITHOUT_ID_BLOBS)
  {
    ModeHistory(params, requiredInliers, permittedOutliers, calls);
  }

  // ----- Probation

  predicate BadPass(est: EstimatorState, input: Input, leds: seq<LedState>)
    requires est.rig.Consistent()
  {
    var verdicts := Verdicts(est.rig, input, leds);
    UsesKalman(est, leds) && NumBad(verdicts) * 3 > NumGood(verdicts) * 2
  }

  /** Every estimate among these calls takes the Kalman path with a bad ratio. */
  predicate AllBad(est: EstimatorState, calls: seq<Call>)
    requires est.rig.Consistent()
  {
    calls == [] ||
    (AllBad(est, Init(calls)) &&
     (Last(calls).EstimatePose? ==> BadPass(Run(est, Init(calls)), Last(calls).input, Last(calls).leds)))
  }

  function CountEstimates(calls: seq<Call>): nat {
    if calls == [] then 0 else CountEstimates(Init(calls)) + if Last(calls).EstimatePose? then 1 else 0
  }

  lemma {:induction false} BadPassesAccumulate(est: EstimatorState, calls: seq<Call>)
    requires est.rig.Consistent() && AllBad(est, calls)
    ensures Run(est, calls).probation == est.probation + CountEstimates(calls)
  {
    if calls != [] {
      BadPassesAccumulate(est, Init(calls));
    }
  }

  /** The ratio that starts probation is also bad enough to prolong it, so there are never twelve
      estimates in a row on the Kalman path with that ratio, whatever other calls come between. */
  lemma NoTwelveBadPasses(params: Params, requiredInliers: nat, permittedOutliers: nat, before: seq<Call>, streak: seq<Call>)
    requires AllBad(After(params, requiredInliers, permittedOutliers, before), streak)
    ensures CountEstimates(streak) <= 11
  {
    BadPassesAccumulate(After(params, requiredInliers, permittedOutliers, before), streak);
    RunConcat(Fresh(params, requiredInliers, permittedOutliers), before, streak);
    ModeHistory(params, requiredInliers, permittedOutliers, before + streak);
  }

  // ----- Losing and finding the blobs

  predicate Blind(est: EstimatorState, call: Call) {
    call.EstimatePose? && InRangeLeds(call.leds, est.rig.numBeacons) == []
  }

  /** The i-th call is an estimate without an identified LED in range, on the Kalman path. */
  predicate BlindOnKalman(est: EstimatorState, calls: seq<Call>, i: nat)
    requires est.rig.Consistent() && i < |calls|
  {
    Blind(est, calls[i]) && UsesKalman(Run(est, calls[..i]), calls[i].leds)
  }

  ghost predicate AllBlindOnKalman(est: EstimatorState, calls: seq<Call>)
    requires est.rig.Consistent()
  {
    forall i :: 0 <= i < |calls| ==> BlindOnKalman(est, calls, i)
  }

  lemma BlindInit(est: EstimatorState, calls: seq<Call>)
    requires est.rig.Consistent() && calls != []
    ensures AllBlindOnKalman(est, calls) <==> AllBlindOnKalman(est, Init(calls)) && BlindOnKalman(est, calls, |calls| - 1)
  {
    forall i | 0 <= i < |Init(calls)| ensures BlindOnKalman(est, calls, i) == BlindOnKalman(est, Init(calls), i) {
      assert calls[..i] == Init(calls)[..i];
    }
  }

  lemma BlindStep(est: EstimatorState, input: Input, leds: seq<LedState>)
    requires est.rig.Consistent() && InRangeLeds(leds, est.rig.numBeacons) == [] && UsesKalman(est, leds)
    ensures var next := Estimate(est, input, leds);
      && next.rig == est.rig && next.withoutBlobs == est.withoutBlobs + 1
      && next.gotPose && next.permitKalman
  {
  }

  lemma {:induction false} BlindPassesAccumulate(est: EstimatorState, calls: seq<Call>)
    requires est.rig.Consistent() && AllBlindOnKalman(est, calls) && calls != []
    ensures var next := Run(est, calls);
      && next.rig == est.rig && next.withoutBlobs == est.withoutBlobs + |calls|
      && next.gotPose && next.permitKalman
  {
    BlindInit(est, calls);
    if |calls| > 1 {
      BlindPassesAccumulate(est, Init(calls));
    }
    BlindStep(Run(est, Init(calls)), Last(calls).input, Last(calls).leds);
  }

  lemma {:induction false} StaysBlind(est: EstimatorState, calls: seq<Call>)
    requires est.rig.Consistent() && Sound(est)
    requires est.gotPose && est.permitKalman && est.withoutBlobs > 0
    requires forall i :: 0 <= i < |calls| ==> Blind(est, calls[i])
    ensures AllBlindOnKalman(est, calls)
    ensures var next := Run(est, calls);
      && Sound(next) && next.rig == est.rig && next.withoutBlobs == est.withoutBlobs + |calls|
      && next.gotPose && next.permitKalman
  {
    if calls != [] {
      StaysBlind(est, Init(calls));
      var before := Run(est, Init(calls));
      assert Blind(est, calls[|calls| - 1]);
      assert UsesKalman(before, Last(calls).leds);
      BlindInit(est, calls);
      SoundStep(before, Last(calls));
      BlindStep(before, Last(calls).input, Last(calls).leds);
    }
  }

  /** After more than ten blind Kalman estimates in a row, estimates that are still blind stay on
      the Kalman path, and the first that sees an identified LED in range uses the solver. */
  lemma LostBlobsRecovered(params: Params, requiredInliers: nat, permittedOutliers: nat,
                           before: seq<Call>, lost: seq<Call>, still: seq<Call>, leds: seq<LedState>)
    requires var est := After(params, requiredInliers, permittedOutliers, before);
      && AllBlindOnKalman(est, lost) && |lost| > 10
      && (forall i :: 0 <= i < |still| ==> Blind(est, still[i]))
      && InRangeLeds(leds, est.rig.numBeacons) != []
    ensures AllBlindOnKalman(After(params, requiredInliers, permittedOutliers, before), lost + still)
    ensures !UsesKalman(After(params, requiredInliers, permittedOutliers, before + lost + still), leds)
  {
    var start := Fresh(params, requiredInliers, permittedOutliers);
    var est := Run(start, before);
    BlindPassesAccumulate(est, lost);
    RunConcat(start, before, lost);
    ModeHistory(params, requiredInliers, permittedOutliers, before + lost);
    var later := Run(est, lost);
    assert forall i :: 0 <= i < |still| ==> Blind(later, still[i]);
    StaysBlind(later, still);
    RunConcat(start, before + lost, still);
    BlindConcat(est, lost, still);
  }

  lemma BlindConcat(est: EstimatorState, a: seq<Call>, b: seq<Call>)
    requires est.rig.Consistent() && AllBlindOnKalman(est, a)
    requires AllBlindOnKalman(Run(est, a), b) && Run(est, a).rig == est.rig
    ensures AllBlindOnKalman(est, a + b)
  {
    forall i | 0 <= i < |a + b| ensures BlindOnKalman(est, a + b, i) {
      if i < |a| {
        assert BlindOnKalman(est, a, i) && (a + b)[..i] == a[..i];
      } else {
        assert BlindOnKalman(Run(est, a), b, i - |a|) && (a + b)[..i] == a + b[..i - |a|];
        RunConcat(est, a, b[..i - |a|]);
      }
    }
  }

  // ----- Accounting for the LEDs

  lemma FilterCons<T>(x: T, s: seq<T>, keep: T -> bool)
    ensures Filter([x] + s, keep) == (if keep(x) then [x] else []) + Filter(s, keep)
  {
    assert ([x] + s)[1..] == s;
  }

  lemma {:induction false} FilterSnoc<T>(s: seq<T>, x: T, keep: T -> bool)
    ensures Filter(s + [x], keep) == Filter(s, keep) + if keep(x) then [x] else []
  {
    if s == [] {
      FilterCons(x, [], keep);
      assert s + [x] == [x] + [];
    } else {
      var first, rest := s[0], s[1..];
      FilterCons(first, rest, keep);
      FilterCons(first, rest + [x], keep);
      assert s == [first] + rest && s + [x] == [first] + (rest + [x]);
      FilterSnoc(rest, x, keep);
    }
  }

  lemma {:induction false} EveryLedJudged(rig: Rig, input: Input, skipBright: bool, leds: seq<LedState>)
    requires rig.Consistent()
    ensures var v := JudgeAll(rig, input, skipBright, leds);
      |InRangeLeds(leds, rig.numBeacons)| == Tally(v, BrightSkipped) + Tally(v, ObliqueSkipped) + NumGood(v) + NumBad(v)
    decreases |leds|
  {
    if leds != [] {
      var n := |leds| - 1;
      var v := JudgeAll(rig, input, skipBright, leds);
      EveryLedJudged(rig, input, skipBright, leds[..n]);
      assert leds == leds[..n] + [leds[n]];
      assert v[..n] == JudgeAll(rig, input, skipBright, leds[..n]);
      FilterSnoc(leds[..n], leds[n], led => InRange(led, rig.numBeacons));
    }
  }

  /** Every identified LED in range is skipped as bright, refuted, skipped as oblique, or used,
      and is counted exactly once. */
  lemma KalmanAccounting(rig: Rig, input: Input, leds: seq<LedState>)
    requires rig.Consistent()
    ensures var v := Verdicts(rig, input, leds);
      |InRangeLeds(leds, rig.numBeacons)| == Tally(v, BrightSkipped) + Tally(v, ObliqueSkipped) + NumGood(v) + NumBad(v)
  {
    EveryLedJudged(rig, input, SkipBright(rig, leds), leds);
  }

  lemma {:induction false} BrightSkippedAreBright(rig: Rig, input: Input, skipBright: bool, leds: seq<LedState>)
    requires rig.Consistent()
    ensures Tally(JudgeAll(rig, input, skipBright, leds), BrightSkipped) == if skipBright then |BrightLeds(leds, rig.numBeacons)| else 0
    decreases |leds|
  {
    if leds != [] {
      var n := |leds| - 1;
      var v := JudgeAll(rig, input, skipBright, leds);
      BrightSkippedAreBright(rig, input, skipBright, leds[..n]);
      assert leds == leds[..n] + [leds[n]];
      assert v[..n] == JudgeAll(rig, input, skipBright, leds[..n]);
      FilterSnoc(leds[..n], leds[n], led => InRange(led, rig.numBeacons) && led.lastBright);
    }
  }

  /** Bright LEDs are skipped all or none, and skipping them leaves at least five others to go by. */
  lemma SkippingLeavesFive(rig: Rig, input: Input, leds: seq<LedState>)
    requires rig.Consistent()
    ensures var v := Verdicts(rig, input, leds);
      var others := Tally(v, ObliqueSkipped) + NumGood(v) + NumBad(v);
      if rig.params.shouldSkipBrightLeds && |InRangeLeds(leds, rig.numBeacons)| >= |BrightLeds(leds, rig.numBeacons)| + 5 then
        Tally(v, BrightSkipped) == |BrightLeds(leds, rig.numBeacons)| && others >= 5
      else Tally(v, BrightSkipped) == 0 && others == |InRangeLeds(leds, rig.numBeacons)|
  {
    KalmanAccounting(rig, input, leds);
    BrightSkippedAreBright(rig, input, SkipBright(rig, leds), leds);
  }

  // ----- Replacing the beacons

  /** The flag that the caller gives a beacon, counting from one. */
  predicate GivenFlag(given: BeaconSet, i: nat) {
    given.isFixed(i + 1)
  }

  /** After `SetBeacons` every beacon has the flag it was given. */
  ghost predicate FlagsMatch(rig: Rig, given: BeaconSet) {
    |rig.fixed| >= |given.beacons| && forall i: nat :: i < |given.beacons| ==> rig.fixed[i] == GivenFlag(given, i)
  }

  ghost predicate VariancesMatch(rig: Rig, given: BeaconSet)
    requires |given.variance| == 1
  {
    |rig.variance| == |given.beacons| && forall i :: 0 <= i < |given.beacons| ==> rig.variance[i] == given.variance[0]
  }

  /** Replacing the beacons gives them the right flags if and only if the flags left over from earlier
      calls happen to be right, and the new ones repeat at that distance. */
  lemma FlagsMatchIff(rig: Rig, given: BeaconSet)
    ensures FlagsMatch(WithBeacons(rig, given), given) <==>
            && (forall i :: 0 <= i < |given.beacons| && i < |rig.fixed| ==> rig.fixed[i] == GivenFlag(given, i))
            && (forall i :: |rig.fixed| <= i < |given.beacons| ==> GivenFlag(given, i) == GivenFlag(given, i - |rig.fixed|))
  {
    var after, flags := WithBeacons(rig, given).fixed, Flags(given);
    assert forall i: nat :: i < |given.beacons| ==> flags[i] == GivenFlag(given, i);
    assert forall i :: 0 <= i < |given.beacons| ==>
             after[i] == if i < |rig.fixed| then rig.fixed[i] else flags[i - |rig.fixed|];
  }

  /** A single variance reaches all beacons if and only if the variances left over from earlier
      calls already have that value. */
  lemma VariancesMatchIff(rig: Rig, given: BeaconSet)
    requires |given.variance| == 1
    ensures VariancesMatch(WithBeacons(rig, given), given) <==>
            forall i :: 0 <= i < |given.beacons| && i < |rig.variance| ==> rig.variance[i] == given.variance[0]
  {
    var after := WithBeacons(rig, given).variance;
    assert after == Resize(rig.variance, |given.beacons|, given.variance[0]);
    assert forall i :: 0 <= i < |given.beacons| ==>
             after[i] == if i < |rig.variance| then rig.variance[i] else given.variance[0];
  }

  /** Whatever came before, every beacon has the emission direction given for it; and unless a single variance is
      given, every beacon has the variance given for it, or 3 when the list is too short. */
  lemma DirectionsAndVariances(rig: Rig, given: BeaconSet)
    ensures var after, n := WithBeacons(rig, given), |given.beacons|;
      && after.numBeacons == n && |after.variance| == n && (after.Consistent() <==> |given.emission| == n)
      && (after.Consistent() ==> forall i :: 0 <= i < n ==> after.emission[i] == given.emission[i])
      && (|given.variance| != 1 ==> forall i :: 0 <= i < n ==>
            after.variance[i] == if i < |given.variance| then given.variance[i] else 3.0)
  {
  }

  /** A second call on the same estimator leaves the first call's flag and variance in place. */
  lemma SecondCallKeepsOldTables(params: Params, requiredInliers: nat, permittedOutliers: nat, at: Vec3)
    ensures var first := BeaconSet([at], [at], [1.0], i => true);
      var second := BeaconSet([at], [at], [2.0], i => false);
      var est := After(params, requiredInliers, permittedOutliers, [SetBeacons(first), SetBeacons(second)]);
      est.rig.fixed[0] && est.rig.variance[0] == 1.0
  {
    var first := BeaconSet([at], [at], [1.0], i => true);
    var second := BeaconSet([at], [at], [2.0], i => false);
    var start := Fresh(params, requiredInliers, permittedOutliers);
    assert Init([SetBeacons(first), SetBeacons(second)]) == [SetBeacons(first)];
    assert Run(start, [SetBeacons(first)]) == Apply(start, SetBeacons(first));
  }
}
