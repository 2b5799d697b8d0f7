/** What the estimator's counters count, and when they force the solver. */
module PoseCounters {
  import opened Types
  import opened LedModel
  import opened Matching
  import opened PoseModel
  import opened PoseHistory

  // ----- Probation

  /** All calls are estimates on the Kalman path. */
  ghost predicate AllOnKalman(est: EstimatorState, calls: seq<Call>)
    requires est.rig.Consistent()
  {
    forall k :: 0 <= k < |calls| ==> OnKalman(est, calls, k)
  }

  ghost predicate OnKalman(est: EstimatorState, calls: seq<Call>, k: nat)
    requires est.rig.Consistent() && k < |calls|
  {
    calls[k].EstimatePose? && UsesKalman(Run(est, calls[..k]), calls[k].leds)
  }

  lemma OnKalmanInit(est: EstimatorState, calls: seq<Call>)
    requires est.rig.Consistent() && calls != [] && AllOnKalman(est, calls)
    ensures AllOnKalman(est, Init(calls)) && Last(calls).EstimatePose? && UsesKalman(Run(est, Init(calls)), Last(calls).leds)
  {
    forall k | 0 <= k < |Init(calls)| ensures OnKalman(est, Init(calls), k) {
      assert OnKalman(est, calls, k) && calls[..k] == Init(calls)[..k];
    }
    assert OnKalman(est, calls, |calls| - 1);
  }

  /** Bad and good LEDs of an estimate with this rig. */
  function BadCount(rig: Rig, call: Call): nat
    requires rig.Consistent()
  {
    if call.EstimatePose? then NumBad(Verdicts(rig, call.input, call.leds)) else 0
  }

  function GoodCount(rig: Rig, call: Call): nat
    requires rig.Consistent()
  {
    if call.EstimatePose? then NumGood(Verdicts(rig, call.input, call.leds)) else 0
  }

  /** Fewer than three good LEDs for two bad ones. */
  predicate Alarming(rig: Rig, call: Call)
    requires rig.Consistent()
  {
    3 * BadCount(rig, call) > 2 * GoodCount(rig, call)
  }

  /** Fewer than two good LEDs for a bad one. */
  predicate Doubtful(rig: Rig, call: Call)
    requires rig.Consistent()
  {
    2 * BadCount(rig, call) > GoodCount(rig, call)
  }

  /** The first estimate is alarming and all others are doubtful. */
  ghost predicate StaysBad(rig: Rig, calls: seq<Call>)
    requires rig.Consistent()
  {
    forall k :: 0 <= k < |calls| ==> if k == 0 then Alarming(rig, calls[0]) else Doubtful(rig, calls[k])
  }

  lemma ProbationStep(est: EstimatorState, call: Call)
    requires est.rig.Consistent() && call.EstimatePose? && UsesKalman(est, call.leds)
    ensures var next := Apply(est, call);
      && next.rig == est.rig
      && next.probation == if (if est.probation == 0 then Alarming(est.rig, call) else Doubtful(est.rig, call)) then est.probation + 1 else 0
  {
  }

  lemma StaysBadInit(rig: Rig, calls: seq<Call>)
    requires rig.Consistent() && calls != []
    ensures StaysBad(rig, calls) <==>
            StaysBad(rig, Init(calls)) && if |calls| == 1 then Alarming(rig, Last(calls)) else Doubtful(rig, Last(calls))
  {
  }

  /** Outside probation, n estimates on the Kalman path bring it to n, never above, and exactly
      when the first is alarming and the others are doubtful. */
  lemma {:induction false} ProbationIff(est: EstimatorState, calls: seq<Call>)
    requires est.rig.Consistent() && est.probation == 0 && AllOnKalman(est, calls)
    ensures Run(est, calls).rig == est.rig && Run(est, calls).probation <= |calls|
    ensures Run(est, calls).probation == |calls| <==> StaysBad(est.rig, calls)
  {
    if calls != [] {
      OnKalmanInit(est, calls);
      ProbationIff(est, Init(calls));
      ProbationStep(Run(est, Init(calls)), Last(calls));
      StaysBadInit(est.rig, calls);
    }
  }

  /** However long it lasted, one estimate with two good LEDs for every bad one ends probation. */
  lemma GoodPassEndsProbation(est: EstimatorState, call: Call)
    requires est.rig.Consistent() && call.EstimatePose? && UsesKalman(est, call.leds)
    requires GoodCount(est.rig, call) >= 2 * BadCount(est.rig, call)
    ensures Apply(est, call).probation == 0
  {
    ProbationStep(est, call);
  }

  /** Outside probation, eleven estimates on the Kalman path make the next one use the solver for their
      bad ratios if and only if the first is alarming and the other ten are doubtful. */
  lemma ElevenForceSolverIff(est: EstimatorState, calls: seq<Call>)
    requires est.rig.Consistent() && est.probation == 0 && AllOnKalman(est, calls) && |calls| == 11
    ensures Run(est, calls).probation > 10 <==> StaysBad(est.rig, calls)
    ensures StaysBad(est.rig, calls) ==> forall leds :: !UsesKalman(Run(est, calls), leds)
  {
    ProbationIff(est, calls);
  }

  // ----- Lost blobs

  /** An estimate on the Kalman path that sees an LED of its own starts the count anew. */
  lemma SeeingStartsAnew(est: EstimatorState, input: Input, leds: seq<LedState>)
    requires est.rig.Consistent() && UsesKalman(est, leds)
    requires exists i :: 0 <= i < |leds| && 0 <= leds[i].id < est.rig.numBeacons
    ensures Estimate(est, input, leds).withoutBlobs == 0
  {
    var i :| 0 <= i < |leds| && 0 <= leds[i].id < est.rig.numBeacons;
    SomeInRange(leds, est.rig.numBeacons, i);
  }

  lemma {:induction false} SomeInRange(leds: seq<LedState>, numBeacons: nat, i: nat)
    requires i < |leds| && 0 <= leds[i].id < numBeacons
    ensures InRangeLeds(leds, numBeacons) != []
  {
    if i > 0 {
      SomeInRange(leds[1..], numBeacons, i - 1);
    }
  }

  lemma {:induction false} NoneInRange(leds: seq<LedState>, numBeacons: nat)
    requires forall i :: 0 <= i < |leds| ==> !(0 <= leds[i].id < numBeacons)
    ensures InRangeLeds(leds, numBeacons) == []
  {
    if leds != [] {
      NoneInRange(leds[1..], numBeacons);
    }
  }

  /** The estimate sees no LED that claims a beacon. */
  ghost predicate SeesNone(est: EstimatorState, call: Call) {
    call.EstimatePose? && forall i :: 0 <= i < |call.leds| ==> !(0 <= call.leds[i].id < est.rig.numBeacons)
  }

  /** A reachable estimator on the Kalman path that has just seen an LED of its own. */
  ghost predicate Seeing(est: EstimatorState) {
    Sound(est) && est.rig.Consistent() && est.gotPose && est.permitKalman && est.withoutBlobs == 0 && est.probation <= 10
  }

  lemma {:induction false} LosesSight(est: EstimatorState, calls: seq<Call>)
    requires Seeing(est) && forall k :: 0 <= k < |calls| ==> SeesNone(est, calls[k])
    ensures var next := Run(est, calls);
      && Sound(next) && next.rig == est.rig && next.gotPose && next.permitKalman
      && next.withoutBlobs == |calls| && next.probation <= 10
  {
    if calls != [] {
      LosesSight(est, Init(calls));
      assert SeesNone(est, calls[|calls| - 1]);
      OneMoreUnseen(Run(est, Init(calls)), Last(calls));
    }
  }

  lemma OneMoreUnseen(est: EstimatorState, call: Call)
    requires est.rig.Consistent() && Sound(est) && est.gotPose && est.permitKalman && est.probation <= 10 && SeesNone(est, call)
    ensures UsesKalman(est, call.leds)
    ensures var next := Apply(est, call);
      && Sound(next) && next.rig == est.rig && next.gotPose && next.permitKalman
      && next.withoutBlobs == est.withoutBlobs + 1 && next.probation <= 10
  {
    NoneInRange(call.leds, est.rig.numBeacons);
    BlindStep(est, call.input, call.leds);
    SoundStep(est, call);
  }

  lemma UnseenOnKalman(est: EstimatorState, calls: seq<Call>)
    requires Seeing(est) && forall k :: 0 <= k < |calls| ==> SeesNone(est, calls[k])
    ensures AllOnKalman(est, calls)
  {
    forall k | 0 <= k < |calls| ensures OnKalman(est, calls, k) {
      LosesSight(est, calls[..k]);
      assert SeesNone(est, calls[k]);
      OneMoreUnseen(Run(est, calls[..k]), calls[k]);
    }
  }

  /** After n estimates that see none, the first that sees an LED of its own again uses the solver if and only if n
      is more than ten; up to ten the filter just goes on. */
  lemma RecoversIff(est: EstimatorState, lost: seq<Call>, leds: seq<LedState>)
    requires Seeing(est) && forall k :: 0 <= k < |lost| ==> SeesNone(est, lost[k])
    requires exists i :: 0 <= i < |leds| && 0 <= leds[i].id < est.rig.numBeacons
    ensures AllOnKalman(est, lost)
    ensures UsesKalman(Run(est, lost), leds) <==> |lost| <= 10
  {
    LosesSight(est, lost);
    UnseenOnKalman(est, lost);
    var i :| 0 <= i < |leds| && 0 <= leds[i].id < est.rig.numBeacons;
    SomeInRange(leds, est.rig.numBeacons, i);
  }

  /** Calls that are no estimates, and estimates on the solver path without a reset, leave the counters alone. */
  lemma OthersLeaveCounters(est: EstimatorState, call: Call)
    requires est.rig.Consistent()
    requires call.EstimatePose? ==> !UsesKalman(est, call.leds) && !NeedsReset(est, call.leds)
    ensures var next := Apply(est, call);
      next.probation == est.probation && next.withoutBlobs == est.withoutBlobs && next.withoutMeasurements == est.withoutMeasurements
  {
  }

  // ----- Rejected measurements

  /** What the counter of rejected frames does in any state, even though no reachable one lets it count: as long as no
      measurement was ever used, a frame that uses one sets it to 0, one that sees LEDs of its own and uses none
      adds to it, and any other leaves it. */
  lemma RejectedFramesCount(est: EstimatorState, input: Input, leds: seq<LedState>)
    requires est.rig.Consistent() && UsesKalman(est, leds)
    ensures var next, used := Estimate(est, input, leds), NumUsed(Verdicts(est.rig, input, leds)) > 0;
      && next.gotMeasurement == (est.gotMeasurement || used)
      && next.withoutMeasurements == if est.gotMeasurement || used then 0
                                     else if InRangeLeds(leds, est.rig.numBeacons) != [] then est.withoutMeasurements + 1
                                     else est.withoutMeasurements
  {
  }

  /** It would force the solver beyond fifty. */
  lemma FiftyRejectedAllowed(est: EstimatorState, leds: seq<LedState>)
    requires est.gotPose && est.gotPrev && est.permitKalman && est.probation <= 10 && est.withoutBlobs <= 10
    ensures UsesKalman(est, leds) <==> est.withoutMeasurements <= 50
  {
  }
}
