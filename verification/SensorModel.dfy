/** One step of one sensor: match the frame's blobs, then estimate the pose. */
module SensorModel {
  import opened Types
  import opened LedModel
  import opened Matching
  import opened PoseModel

  datatype SensorState = SensorState(leds: seq<LedState>, est: EstimatorState)

  /** What a frame brings besides its blobs: the bytes new LEDs are born with, and the estimate's input. */
  datatype FrameInput = FrameInput(garbage: nat -> uint8, estimate: Input)

  function MatchedLeds(params: Params, identifier: Option<Decoder>, s: SensorState,
                       blobs: seq<LedMeasurement>, input: FrameInput): seq<LedState> {
    UpdateLeds(params, identifier, s.leds, blobs, input.garbage)
  }

  function SensorStep(params: Params, identifier: Option<Decoder>, s: SensorState,
                      blobs: seq<LedMeasurement>, input: FrameInput): (next: SensorState)
    requires s.est.rig.Consistent()
    ensures next.est.rig == s.est.rig
  {
    var leds := MatchedLeds(params, identifier, s, blobs, input);
    SensorState(EstimatedLeds(s.est, input.estimate, leds), Estimate(s.est, input.estimate, leds))
  }

  /** Does the sensor have a pose after the step? */
  predicate StepSucceeds(params: Params, identifier: Option<Decoder>, s: SensorState,
                         blobs: seq<LedMeasurement>, input: FrameInput) {
    Succeeds(s.est, input.estimate, MatchedLeds(params, identifier, s, blobs, input))
  }

  /** A sensor just added, with these beacons. */
  function NewSensor(params: Params, given: BeaconSet, requiredInliers: nat, permittedOutliers: nat): SensorState {
    var blank := Fresh(params, requiredInliers, permittedOutliers);
    SensorState([], blank.(rig := WithBeacons(blank.rig, given)))
  }

  ghost predicate AllConsistent(states: seq<SensorState>) {
    forall i :: 0 <= i < |states| ==> states[i].est.rig.Consistent()
  }

  /** All sensors see the same blobs; none sees another one's state. */
  function StepAll(params: Params, identifiers: seq<Option<Decoder>>, states: seq<SensorState>,
                   blobs: seq<LedMeasurement>, inputs: seq<FrameInput>): (r: seq<SensorState>)
    requires |inputs| == |states| == |identifiers|
    requires forall i :: 0 <= i < |states| ==> states[i].est.rig.Consistent()
    ensures |r| == |states|
  {
    seq(|states|, i requires 0 <= i < |states| => SensorStep(params, identifiers[i], states[i], blobs, inputs[i]))
  }

  function SucceedAll(params: Params, identifiers: seq<Option<Decoder>>, states: seq<SensorState>,
                      blobs: seq<LedMeasurement>, inputs: seq<FrameInput>): (r: seq<bool>)
    requires |inputs| == |states| == |identifiers|
    ensures |r| == |states|
  {
    seq(|states|, i requires 0 <= i < |states| => StepSucceeds(params, identifiers[i], states[i], blobs, inputs[i]))
  }
}
