/** The tracker: for each sensor an identifier, a list of tracked LEDs and a pose estimator. */
module VideoTracker {
  import opened Types
  import opened LedModel
  import opened LedObject
  import opened Matching
  import opened PoseModel
  import opened PoseEstimator
  import opened SensorModel

  class VideoBasedTracker {
    const params: Params
    var identifiers: seq<Option<Decoder>>
    var ledGroups: seq<seq<Led>>
    var estimators: seq<BeaconBasedPoseEstimator>

    static ghost predicate Apart(a: seq<Led>, b: seq<Led>) {
      forall led :: led in a ==> led !in b
    }

    /** The containers are parallel, no LED or estimator is in two places, and the sensors are in these states. */
    static ghost predicate Arranged(groups: seq<seq<Led>>, estimators: seq<BeaconBasedPoseEstimator>, states: seq<SensorState>)
      reads *
    {
      && |groups| == |estimators| == |states|
      && (forall i :: 0 <= i < |groups| ==> Distinct(groups[i]) && Shows(groups[i], states[i].leds))
      && (forall i, j :: 0 <= i < j < |groups| ==> Apart(groups[i], groups[j]))
      && (forall i, j :: 0 <= i < j < |estimators| ==> estimators[i] != estimators[j])
      && (forall i :: 0 <= i < |estimators| ==> estimators[i].View() == states[i].est)
    }

    /** The tracker's sensors are in these states. */
    ghost predicate Stands(states: seq<SensorState>)
      reads *
    {
      |identifiers| == |states| && Arranged(ledGroups, estimators, states)
    }

    constructor (params: Params)
      ensures Stands([]) && identifiers == [] && this.params == params
    {
      this.params := params;
      identifiers, ledGroups, estimators := [], [], [];
    }

    /** False stands for the exception of `SetBeacons`; the containers have grown by then. */
    method AddSensor(identifier: Option<Decoder>, given: BeaconSet, requiredInliers: nat, permittedOutliers: nat,
                     ghost states: seq<SensorState>) returns (ok: bool, ghost added: BeaconBasedPoseEstimator)
      requires Stands(states)
      modifies this
      ensures identifiers == old(identifiers) + [identifier] && ledGroups == old(ledGroups) + [[]]
      ensures estimators == old(estimators) + [added] && fresh(added)
      ensures Stands(states + [NewSensor(params, given, requiredInliers, permittedOutliers)])
      ensures ok <==> NewSensor(params, given, requiredInliers, permittedOutliers).est.rig.Consistent()
    {
      identifiers := identifiers + [identifier];
      var estimator := new BeaconBasedPoseEstimator(params, requiredInliers, permittedOutliers);
      added := estimator;
      estimators := estimators + [estimator];
      ledGroups := ledGroups + [[]];
      ok := estimator.SetBeacons(given);
      assert Arranged(old(ledGroups), old(estimators), states);
      Extended(old(ledGroups), old(estimators), states, estimator, NewSensor(params, given, requiredInliers, permittedOutliers));
    }

    /** Another estimator and an empty list extend the arrangement. */
    static lemma Extended(groups: seq<seq<Led>>, estimators: seq<BeaconBasedPoseEstimator>, states: seq<SensorState>,
                          estimator: BeaconBasedPoseEstimator, s: SensorState)
      requires Arranged(groups, estimators, states) && estimator !in estimators
      requires estimator.View() == s.est && s.leds == []
      ensures Arranged(groups + [[]], estimators + [estimator], states + [s])
    {
    }

    /** The matching block of `processImage` on the list of one sensor: LEDs without a blob
        are erased from it, the others take one, and each blob left over appends an LED. */
    method UpdateLedGroup(identifier: Option<Decoder>, leds: seq<Led>, ghost views: seq<LedState>,
                          measurements: seq<LedMeasurement>, garbage: nat -> uint8) returns (myLeds: seq<Led>)
      requires Shows(leds, views) && Distinct(leds)
      modifies leds
      ensures Shows(myLeds, UpdateLeds(params, identifier, views, measurements, garbage))
      ensures Distinct(myLeds)
      ensures forall k :: 0 <= k < |myLeds| ==> myLeds[k] in leds || fresh(myLeds[k])
    {
      var ledsMeasurements;
      ghost var survivors;
      myLeds, ledsMeasurements, survivors := EraseUnmatched(leds, views, measurements);
      myLeds := AppendNew(myLeds, survivors, identifier, ledsMeasurements, garbage);
    }

    /** The appending loop: one new LED for each blob left over. */
    method AppendNew(kept: seq<Led>, ghost survivors: seq<LedState>, identifier: Option<Decoder>,
                     measurements: seq<LedMeasurement>, garbage: nat -> uint8) returns (myLeds: seq<Led>)
      requires Shows(kept, survivors) && Distinct(kept)
      ensures Shows(myLeds, survivors + Births(identifier, measurements, garbage)) && Distinct(myLeds)
      ensures |myLeds| >= |kept| && myLeds[..|kept|] == kept
      ensures forall k :: |kept| <= k < |myLeds| ==> fresh(myLeds[k])
    {
      ghost var views := survivors + Births(identifier, measurements, garbage);
      myLeds := kept;
      for n := 0 to |measurements|
        invariant |myLeds| == |kept| + n && Distinct(myLeds)
        invariant forall k :: 0 <= k < |kept| ==> myLeds[k] == kept[k]
        invariant forall k :: |kept| <= k < |myLeds| ==> fresh(myLeds[k])
        invariant forall k :: 0 <= k < |myLeds| ==> myLeds[k].View() == views[k]
      {
        var led := new Led(identifier, measurements[n], garbage(n));
        assert led.View() == views[|kept| + n];
        myLeds := myLeds + [led];
      }
    }

    /** The erasing loop. With the iterator at `n` the list is `myLeds` followed by `leds[n..]`. */
    method EraseUnmatched(leds: seq<Led>, ghost views: seq<LedState>, measurements: seq<LedMeasurement>)
      returns (myLeds: seq<Led>, ledsMeasurements: seq<LedMeasurement>, ghost survivors: seq<LedState>)
      requires Shows(leds, views) && Distinct(leds)
      modifies leds
      ensures (survivors, ledsMeasurements) == Match(params, views, measurements)
      ensures Shows(myLeds, survivors) && Distinct(myLeds)
      ensures forall k :: 0 <= k < |myLeds| ==> myLeds[k] in leds
    {
      myLeds, ledsMeasurements, survivors := [], measurements, [];
      assert survivors + Match(params, views, measurements).0 == Match(params, views, measurements).0;
      ghost var visited: set<Led> := {};
      for n := 0 to |leds|
        invariant forall led :: led in visited ==> led in leds
        invariant forall j :: n <= j < |leds| ==> leds[j] !in visited && leds[j].View() == views[j]
        invariant forall k :: 0 <= k < |myLeds| ==> myLeds[k] in visited
        invariant Distinct(myLeds) && Shows(myLeds, survivors)
        invariant Match(params, views, measurements) ==
                  (survivors + Match(params, views[n..], ledsMeasurements).0, Match(params, views[n..], ledsMeasurements).1)
      {
        assert views[n..][1..] == views[n + 1..];
        MatchTurn(params, survivors, views[n..], ledsMeasurements);
        assert leds[n] !in myLeds;
        visited := visited + {leds[n]};
        myLeds, ledsMeasurements, survivors := TakeTurn(leds[n], views[n], myLeds, survivors, ledsMeasurements);
      }
      assert survivors + Match(params, [], ledsMeasurements).0 == survivors;
    }

    /** The turn of one LED: it takes the nearest blob in reach and is kept, or it is erased. */
    method TakeTurn(led: Led, ghost view: LedState, kept: seq<Led>, ghost survivors: seq<LedState>, measurements: seq<LedMeasurement>)
      returns (myLeds: seq<Led>, ledsMeasurements: seq<LedMeasurement>, ghost survivors': seq<LedState>)
      requires led.View() == view && Shows(kept, survivors) && Distinct(kept) && led !in kept
      modifies led
      ensures Shows(myLeds, survivors') && Distinct(myLeds)
      ensures var k := Pick(params, view, measurements);
        if k == |measurements| then myLeds == kept && ledsMeasurements == measurements && survivors' == survivors
        else
          && myLeds == kept + [led] && ledsMeasurements == Remove(measurements, k)
          && survivors' == survivors + [Follow(params, view, measurements[k])]
    {
      myLeds, ledsMeasurements, survivors' := kept, measurements, survivors;
      var nearest := FollowNearest(led, view, measurements);
      assert Shows(kept, survivors);
      if nearest != |measurements| {
        survivors' := survivors + [Follow(params, view, measurements[nearest])];
        ledsMeasurements := Remove(measurements, nearest);
        myLeds := kept + [led];
      }
    }

    /** The LED takes the nearest blob in reach, if there is one. */
    method FollowNearest(led: Led, ghost view: LedState, measurements: seq<LedMeasurement>) returns (nearest: nat)
      requires led.View() == view
      modifies led
      ensures nearest == Pick(params, view, measurements)
      ensures nearest < |measurements| ==> led.View() == Follow(params, view, measurements[nearest])
    {
      led.ResetUsed();
      var threshold := params.blobMoveThreshold * led.latestMeasurement.diameter;
      assert threshold == MoveThreshold(params, view.latest);
      nearest := led.NearestBlob(measurements, threshold);
      if nearest != |measurements| {
        led.AddMeasurement(measurements[nearest], params.blobsKeepIdentity);
      }
    }

    static lemma MatchTurn(params: Params, survivors: seq<LedState>, leds: seq<LedState>, blobs: seq<LedMeasurement>)
      requires leds != []
      ensures var k, (rest, left) := Pick(params, leds[0], blobs), Match(params, leds, blobs);
        if k == |blobs| then (rest, left) == Match(params, leds[1..], blobs)
        else
          var (rest', left') := Match(params, leds[1..], Remove(blobs, k));
          survivors + rest == survivors + [Follow(params, leds[0], blobs[k])] + rest' && left == left'
    {
    }

    /** A frame: every sensor matches the same blobs and makes its own estimate. */
    method ProcessImage(measurements: seq<LedMeasurement>, inputs: seq<FrameInput>, ghost states: seq<SensorState>)
      returns (gotPoses: seq<bool>)
      requires Stands(states) && AllConsistent(states) && |inputs| == |states|
      modifies this`ledGroups, estimators, Leds()
      ensures identifiers == old(identifiers) && estimators == old(estimators) && |states| == |identifiers|
      ensures gotPoses == SucceedAll(params, identifiers, states, measurements, inputs)
      ensures Stands(StepAll(params, identifiers, states, measurements, inputs))
      ensures forall led :: led in Leds() ==> led in old(Leds()) || fresh(led)
    {
      ghost var after := StepAll(params, identifiers, states, measurements, inputs);
      ghost var succeeded := SucceedAll(params, identifiers, states, measurements, inputs);
      ghost var held;
      gotPoses, held := ProcessSensors(measurements, inputs, states, after, succeeded, Leds());
      assert forall i, k :: 0 <= i < |ledGroups| && 0 <= k < |ledGroups[i]| ==> Within(ledGroups[i], held) && ledGroups[i][k] in held;
    }

    /** All LEDs that the tracker holds. */
    ghost function Leds(): set<Led>
      reads this
    {
      set i, k | 0 <= i < |ledGroups| && 0 <= k < |ledGroups[i]| :: ledGroups[i][k]
    }

    /** The loop over the sensors; `after` and `succeeded` are what their steps lead to. */
    method ProcessSensors(measurements: seq<LedMeasurement>, inputs: seq<FrameInput>, ghost states: seq<SensorState>,
                          ghost after: seq<SensorState>, ghost succeeded: seq<bool>, ghost leds: set<Led>)
      returns (gotPoses: seq<bool>, ghost held: set<Led>)
      requires Stands(states) && AllConsistent(states) && |inputs| == |states| == |after| == |succeeded|
      requires forall i :: 0 <= i < |after| ==> after[i] == SensorStep(params, identifiers[i], states[i], measurements, inputs[i])
      requires forall i :: 0 <= i < |after| ==> succeeded[i] == StepSucceeds(params, identifiers[i], states[i], measurements, inputs[i])
      requires AllWithin(leds)
      modifies this`ledGroups, estimators, leds
      ensures Stands(after) && gotPoses == succeeded
      ensures AllWithin(held) && forall led :: led in held ==> led in leds || fresh(led)
    {
      gotPoses, held := [], leds;
      ghost var now := states;
      for sensor := 0 to |identifiers|
        invariant Stands(now)
        invariant gotPoses == succeeded[..sensor]
        invariant AllWithin(held) && forall led :: led in held ==> led in leds || fresh(led)
        invariant forall i :: 0 <= i < |now| ==> now[i] == if i < sensor then after[i] else states[i]
      {
        ghost var next := now[sensor := after[sensor]];
        SliceGrows(succeeded, sensor);
        var gotPose;
        gotPose, held := ProcessSensor(sensor, measurements, inputs[sensor], now, next, succeeded[sensor], held);
        gotPoses := gotPoses + [gotPose];
        now := next;
      }
      assert now == after;
    }

    static lemma SliceGrows<T>(s: seq<T>, n: nat)
      requires n < |s|
      ensures s[..n] + [s[n]] == s[..n + 1]
    {
    }

    /** No LED is outside this set. */
    ghost predicate AllWithin(leds: set<Led>)
      reads this
    {
      forall i :: 0 <= i < |ledGroups| ==> Within(ledGroups[i], leds)
    }

    static ghost predicate Within(group: seq<Led>, leds: set<Led>) {
      forall led :: led in group ==> led in leds
    }

    /** The loop body of `processImage`: the other sensors stay as they are. */
    method ProcessSensor(sensor: nat, measurements: seq<LedMeasurement>, input: FrameInput, ghost states: seq<SensorState>,
                         ghost next: seq<SensorState>, ghost succeeds: bool, ghost leds: set<Led>)
      returns (gotPose: bool, ghost held: set<Led>)
      requires Stands(states) && sensor < |states| == |next| && states[sensor].est.rig.Consistent() && AllWithin(leds)
      requires next[sensor] == SensorStep(params, identifiers[sensor], states[sensor], measurements, input)
      requires forall i :: 0 <= i < |states| && i != sensor ==> next[i] == states[i]
      requires succeeds == StepSucceeds(params, identifiers[sensor], states[sensor], measurements, input)
      modifies this`ledGroups, ledGroups[sensor], estimators[sensor]
      ensures Stands(next) && gotPose == succeeds
      ensures forall i :: 0 <= i < |ledGroups| && i != sensor ==> ledGroups[i] == old(ledGroups[i])
      ensures AllWithin(held) && forall led :: led in held ==> led in leds || fresh(led)
    {
      var myLeds;
      myLeds, gotPose := AdvanceSensor(sensor, measurements, input, states);
      ghost var groups := ledGroups;
      ledGroups := ledGroups[sensor := myLeds];
      Rejoin(groups, estimators, sensor, states, next, myLeds);
      held := leds + set led | led in myLeds;
    }

    /** The other sensors are as they were, and share no LED with the new list of this one. */
    method AdvanceSensor(sensor: nat, measurements: seq<LedMeasurement>, input: FrameInput, ghost states: seq<SensorState>)
      returns (myLeds: seq<Led>, gotPose: bool)
      requires Stands(states) && sensor < |states| && states[sensor].est.rig.Consistent()
      modifies ledGroups[sensor], estimators[sensor]
      ensures Shows(myLeds, SensorStep(params, identifiers[sensor], states[sensor], measurements, input).leds)
      ensures estimators[sensor].View() == SensorStep(params, identifiers[sensor], states[sensor], measurements, input).est
      ensures gotPose == StepSucceeds(params, identifiers[sensor], states[sensor], measurements, input)
      ensures Distinct(myLeds)
      ensures forall led :: led in myLeds ==> led in ledGroups[sensor] || fresh(led)
      ensures forall i :: 0 <= i < |states| && i != sensor ==>
                && Shows(ledGroups[i], states[i].leds) && estimators[i].View() == states[i].est
                && Apart(ledGroups[i], myLeds) && Apart(myLeds, ledGroups[i])
    {
      myLeds, gotPose := MatchAndEstimate(sensor, measurements, input, states[sensor]);
      forall i | 0 <= i < |states| && i != sensor
        ensures Shows(ledGroups[i], states[i].leds) && Apart(ledGroups[i], myLeds) && Apart(myLeds, ledGroups[i])
      {
        var others := ledGroups[i];
        assert old(Shows(others, states[i].leds));
        forall k | 0 <= k < |others| ensures others[k] !in myLeds && others[k].View() == old(others[k].View()) {
          assert others[k] !in ledGroups[sensor] && !fresh(others[k]);
        }
      }
    }

    /** Storing the new list of one sensor keeps the arrangement. */
    static lemma Rejoin(groups: seq<seq<Led>>, estimators: seq<BeaconBasedPoseEstimator>, sensor: nat,
                        states: seq<SensorState>, next: seq<SensorState>, myLeds: seq<Led>)
      requires |groups| == |estimators| == |states| == |next| && sensor < |states|
      requires forall i :: 0 <= i < |groups| ==> Distinct(groups[i])
      requires forall i, j :: 0 <= i < j < |groups| ==> Apart(groups[i], groups[j])
      requires forall i, j :: 0 <= i < j < |estimators| ==> estimators[i] != estimators[j]
      requires Distinct(myLeds) && Shows(myLeds, next[sensor].leds) && estimators[sensor].View() == next[sensor].est
      requires forall i :: 0 <= i < |states| && i != sensor ==>
                 && next[i] == states[i] && Shows(groups[i], states[i].leds) && estimators[i].View() == states[i].est
                 && Apart(groups[i], myLeds) && Apart(myLeds, groups[i])
      ensures Arranged(groups[sensor := myLeds], estimators, next)
    {
    }

    /** Matching and estimating change the LEDs and the estimator of one sensor. */
    method MatchAndEstimate(sensor: nat, measurements: seq<LedMeasurement>, input: FrameInput, ghost s: SensorState)
      returns (myLeds: seq<Led>, gotPose: bool)
      requires sensor < |ledGroups| == |identifiers| == |estimators| && Distinct(ledGroups[sensor])
      requires Shows(ledGroups[sensor], s.leds) && estimators[sensor].View() == s.est && s.est.rig.Consistent()
      modifies ledGroups[sensor], estimators[sensor]
      ensures Shows(myLeds, SensorStep(params, identifiers[sensor], s, measurements, input).leds)
      ensures estimators[sensor].View() == SensorStep(params, identifiers[sensor], s, measurements, input).est
      ensures gotPose == StepSucceeds(params, identifiers[sensor], s, measurements, input)
      ensures Distinct(myLeds)
      ensures forall k :: 0 <= k < |myLeds| ==> myLeds[k] in ledGroups[sensor] || fresh(myLeds[k])
    {
      myLeds := UpdateLedGroup(identifiers[sensor], ledGroups[sensor], s.leds, measurements, input.garbage);
      ghost var matched := MatchedLeds(params, identifiers[sensor], s, measurements, input);
      gotPose := estimators[sensor].EstimatePoseFromLeds(myLeds, matched, input.estimate);
    }
  }
}
