/** The run of a sensor as a history of calls of its pose estimator. */
module SensorCalls {
  import opened Types
  import opened LedModel
  import opened Matching
  import opened PoseModel
  import opened SensorRun
  import PoseHistory

  /** The estimate that each frame asks for. */
  function CallsOf(params: Params, identifier: Option<Decoder>, est: EstimatorState, frames: seq<Frame>): (calls: seq<PoseHistory.Call>)
    requires est.rig.Consistent()
    ensures |calls| == |frames|
  {
    seq(|frames|, n requires 0 <= n < |frames| =>
      PoseHistory.EstimatePose(frames[n].input.estimate, MatchedLast(params, identifier, est, frames[..n + 1])))
  }

  lemma CallsOfPrefix(params: Params, identifier: Option<Decoder>, est: EstimatorState, frames: seq<Frame>, n: nat)
    requires est.rig.Consistent() && n <= |frames|
    ensures CallsOf(params, identifier, est, frames[..n]) == CallsOf(params, identifier, est, frames)[..n]
  {
    forall k | 0 <= k < n
      ensures CallsOf(params, identifier, est, frames[..n])[k] == CallsOf(params, identifier, est, frames)[k]
    {
      assert frames[..n][..k + 1] == frames[..k + 1];
    }
  }

  /** What is shown of the estimator over every history of calls holds for the estimator of every sensor. */
  lemma {:induction false} RunIsHistory(params: Params, identifier: Option<Decoder>, est: EstimatorState, frames: seq<Frame>)
    requires est.rig.Consistent()
    ensures Run(params, identifier, est, frames).est == PoseHistory.Run(est, CallsOf(params, identifier, est, frames))
  {
    if frames != [] {
      var n := |frames| - 1;
      var calls := CallsOf(params, identifier, est, frames);
      RunIsHistory(params, identifier, est, frames[..n]);
      CallsOfPrefix(params, identifier, est, frames, n);
      assert frames[..n + 1] == frames;
      assert PoseHistory.Init(calls) == calls[..n] && PoseHistory.Last(calls) == calls[n];
    }
  }
}
