/** The run of a sensor: frame after frame, from the first on. */
module SensorRun {
  import opened Types
  import opened LedModel
  import opened Matching
  import opened PoseModel
  import opened SensorModel

  datatype Frame = Frame(blobs: seq<LedMeasurement>, input: FrameInput)

  function Run(params: Params, identifier: Option<Decoder>, est: EstimatorState, frames: seq<Frame>): (s: SensorState)
    requires est.rig.Consistent()
    ensures s.est.rig == est.rig
  {
    if frames == [] then SensorState([], est)
    else
      var n := |frames| - 1;
      SensorStep(params, identifier, Run(params, identifier, est, frames[..n]), frames[n].blobs, frames[n].input)
  }

  // ----- Refutations

  /** The LEDs of a run once its last frame is matched, before its estimate. */
  function MatchedLast(params: Params, identifier: Option<Decoder>, est: EstimatorState, frames: seq<Frame>): seq<LedState>
    requires est.rig.Consistent() && frames != []
  {
    var n := |frames| - 1;
    MatchedLeds(params, identifier, Run(params, identifier, est, frames[..n]), frames[n].blobs, frames[n].input)
  }

  lemma MatchedNext(params: Params, identifier: Option<Decoder>, est: EstimatorState, frames: seq<Frame>, n: nat)
    requires est.rig.Consistent() && n < |frames|
    ensures MatchedLast(params, identifier, est, frames[..n + 1])
            == UpdateLeds(params, identifier, Run(params, identifier, est, frames[..n]).leds, frames[n].blobs, frames[n].input.garbage)
  {
    assert frames[..n + 1][..n] == frames[..n];
  }

  /** The verdicts of the last frame's estimate; none when it did not take the Kalman path. */
  function LastVerdicts(params: Params, identifier: Option<Decoder>, est: EstimatorState, frames: seq<Frame>): (v: seq<Verdict>)
    requires est.rig.Consistent() && frames != []
    ensures |v| == |MatchedLast(params, identifier, est, frames)|
  {
    var n := |frames| - 1;
    var leds := MatchedLast(params, identifier, est, frames);
    if UsesKalman(Run(params, identifier, est, frames[..n]).est, leds) then Verdicts(est.rig, frames[n].input.estimate, leds)
    else seq(|leds|, i => Ignored)
  }

  /** Did the estimate of the last frame refute the i-th LED? */
  predicate RefutedLast(params: Params, identifier: Option<Decoder>, est: EstimatorState, frames: seq<Frame>, i: nat)
    requires est.rig.Consistent() && frames != []
  {
    i < |LastVerdicts(params, identifier, est, frames)| && LastVerdicts(params, identifier, est, frames)[i].Misidentified?
  }

  /** Only an identified LED is ever refuted. */
  lemma RefutedWasIdentified(params: Params, identifier: Option<Decoder>, est: EstimatorState, frames: seq<Frame>, i: nat)
    requires est.rig.Consistent() && frames != [] && RefutedLast(params, identifier, est, frames, i)
    ensures Identified(MatchedLast(params, identifier, est, frames)[i])
  {
  }

  /** How many samples the i-th LED has had since it was created or last refuted,
      when no LED is ever deleted. */
  function Age(params: Params, identifier: Option<Decoder>, est: EstimatorState, frames: seq<Frame>, i: nat): nat
    requires est.rig.Consistent()
  {
    if frames == [] then 0
    else if RefutedLast(params, identifier, est, frames, i) then 1
    else Age(params, identifier, est, frames[..|frames| - 1], i) + 1
  }

  function Ages(params: Params, identifier: Option<Decoder>, est: EstimatorState, frames: seq<Frame>, count: nat): (ages: seq<nat>)
    requires est.rig.Consistent()
    ensures |ages| == count
  {
    seq(count, i requires 0 <= i < count => Age(params, identifier, est, frames, i))
  }

  /** A refuted LED starts over with one sample. */
  function Rejuvenated(ages: seq<nat>, verdicts: seq<Verdict>): (r: seq<nat>)
    requires |ages| == |verdicts|
    ensures |r| == |ages|
  {
    seq(|ages|, i requires 0 <= i < |ages| => if verdicts[i].Misidentified? then 1 else ages[i])
  }

  /** The LEDs after a frame, told by its verdicts. */
  lemma LedsStep(params: Params, identifier: Option<Decoder>, est: EstimatorState, frames: seq<Frame>)
    requires est.rig.Consistent() && frames != []
    ensures Run(params, identifier, est, frames).leds
            == MarkAll(MatchedLast(params, identifier, est, frames), LastVerdicts(params, identifier, est, frames))
  {
    var n := |frames| - 1;
    var before := Run(params, identifier, est, frames[..n]).est;
    var leds := MatchedLast(params, identifier, est, frames);
    assert Run(params, identifier, est, frames).leds == EstimatedLeds(before, frames[n].input.estimate, leds);
    if !UsesKalman(before, leds) {
      assert MarkAll(leds, LastVerdicts(params, identifier, est, frames)) == leds;
    }
  }

  /** The ages after a frame, told by its verdicts. */
  lemma AgesStep(params: Params, identifier: Option<Decoder>, est: EstimatorState, frames: seq<Frame>, ages: seq<nat>)
    requires est.rig.Consistent() && frames != [] && |ages| == |MatchedLast(params, identifier, est, frames)|
    requires forall i :: 0 <= i < |ages| ==> ages[i] == Age(params, identifier, est, frames[..|frames| - 1], i) + 1
    ensures Ages(params, identifier, est, frames, |ages|) == Rejuvenated(ages, LastVerdicts(params, identifier, est, frames))
  {
    var verdicts := LastVerdicts(params, identifier, est, frames);
    forall i | 0 <= i < |ages|
      ensures Age(params, identifier, est, frames, i) == if verdicts[i].Misidentified? then 1 else ages[i]
    {
      assert RefutedLast(params, identifier, est, frames, i) <==> verdicts[i].Misidentified?;
    }
  }

  // ----- Several sensors in one image

  /** A frame as all sensors get it: the same blobs, and for each its own input. */
  datatype Shot = Shot(blobs: seq<LedMeasurement>, inputs: seq<FrameInput>)

  ghost predicate ForAll(shots: seq<Shot>, count: nat) {
    forall n :: 0 <= n < |shots| ==> |shots[n].inputs| == count
  }

  /** The states of a tracker's sensors after these frames. */
  ghost function RunAll(params: Params, identifiers: seq<Option<Decoder>>, states: seq<SensorState>, shots: seq<Shot>): (r: seq<SensorState>)
    requires |identifiers| == |states| && ForAll(shots, |states|) && AllConsistent(states)
    ensures |r| == |states| && AllConsistent(r)
  {
    if shots == [] then states
    else
      var n := |shots| - 1;
      StepAll(params, identifiers, RunAll(params, identifiers, states, shots[..n]), shots[n].blobs, shots[n].inputs)
  }

  /** The frames that the i-th sensor gets. */
  function FramesOf(shots: seq<Shot>, i: nat): (frames: seq<Frame>)
    requires forall n :: 0 <= n < |shots| ==> i < |shots[n].inputs|
    ensures |frames| == |shots|
  {
    seq(|shots|, n requires 0 <= n < |shots| => Frame(shots[n].blobs, shots[n].inputs[i]))
  }

  /** Over every run each sensor of a tracker, with or without an identifier, does what it would do alone. */
  lemma {:induction false} SensorsAreIndependent(params: Params, identifiers: seq<Option<Decoder>>, states: seq<SensorState>,
                                                 shots: seq<Shot>, i: nat)
    requires |identifiers| == |states| && ForAll(shots, |states|) && AllConsistent(states)
    requires i < |states| && states[i].leds == []
    ensures RunAll(params, identifiers, states, shots)[i] == Run(params, identifiers[i], states[i].est, FramesOf(shots, i))
  {
    if shots != [] {
      var n := |shots| - 1;
      SensorsAreIndependent(params, identifiers, states, shots[..n], i);
      FramesBefore(shots, i);
    }
  }

  lemma FramesBefore(shots: seq<Shot>, i: nat)
    requires shots != [] && forall n :: 0 <= n < |shots| ==> i < |shots[n].inputs|
    ensures FramesOf(shots, i)[..|shots| - 1] == FramesOf(shots[..|shots| - 1], i)
  {
  }
}
