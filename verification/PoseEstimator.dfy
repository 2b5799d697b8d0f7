/** The pose estimator object. The Kalman state itself and the solver are not modelled:
    what they yield arrives as the input of an estimate. */
module PoseEstimator {
  import opened Types
  import opened LedModel
  import opened LedObject
  import opened Matching
  import opened PoseModel
  import opened Vectors

  ghost predicate Distinct(leds: seq<Led>) {
    forall i, j :: 0 <= i < j < |leds| ==> leds[i] != leds[j]
  }

  /** The LED objects hold these states, in this order. */
  ghost predicate Shows(leds: seq<Led>, views: seq<LedState>)
    reads leds
  {
    |leds| == |views| && forall i :: 0 <= i < |leds| ==> leds[i].View() == views[i]
  }

  class BeaconBasedPoseEstimator {
    const params: Params
    const requiredInliers: nat
    const permittedOutliers: nat
    var numBeacons: nat
    var emissionDirection: seq<Vec3>
    var beaconFixed: seq<bool>
    var beaconMeasurementVariance: seq<real>
    var permitKalman: bool
    var gotPose: bool
    var gotPrev: bool
    var gotMeasurement: bool
    var prev: real
    var framesInProbation: nat
    var framesWithoutUtilizedMeasurements: nat
    var framesWithoutIdentifiedBlobs: nat

    ghost function RigView(): Rig
      reads this
    {
      Rig(params, numBeacons, emissionDirection, beaconFixed, beaconMeasurementVariance,
          requiredInliers, permittedOutliers)
    }

    ghost function View(): EstimatorState
      reads this
    {
      EstimatorState(RigView(), permitKalman, gotPose, gotPrev, gotMeasurement, prev,
                     framesInProbation, framesWithoutUtilizedMeasurements, framesWithoutIdentifiedBlobs)
    }

    constructor (params: Params, requiredInliers: nat, permittedOutliers: nat)
      ensures View() == Fresh(params, requiredInliers, permittedOutliers)
    {
      this.params := params;
      this.requiredInliers := requiredInliers;
      this.permittedOutliers := permittedOutliers;
      numBeacons, emissionDirection, beaconFixed, beaconMeasurementVariance := 0, [], [], [];
      permitKalman, gotPose, gotPrev, gotMeasurement, prev := true, false, false, false, 0.0;
      framesInProbation, framesWithoutUtilizedMeasurements, framesWithoutIdentifiedBlobs := 0, 0, 0;
    }

    /** False stands for the exception on lists of different lengths; the pose
        is given up and the tables are replaced before it is thrown. */
    method SetBeacons(given: BeaconSet) returns (ok: bool)
      modifies this
      ensures View() == old(View()).(gotPose := false, rig := WithBeacons(old(RigView()), given))
      ensures ok <==> RigView().Consistent()
    {
      gotPose := false;
      var n := |given.beacons|;
      ghost var flags := Flags(given);
      for bNum := 0 to n
        invariant beaconFixed == old(beaconFixed) + flags[..bNum]
        invariant View() == old(View()).(gotPose := false, rig := old(RigView()).(fixed := beaconFixed))
      {
        beaconFixed := beaconFixed + [given.isFixed(bNum + 1)];
      }
      numBeacons := n;
      if |given.variance| == 1 {
        beaconMeasurementVariance := Resize(beaconMeasurementVariance, n, given.variance[0]);
      } else {
        beaconMeasurementVariance := given.variance;
      }
      beaconMeasurementVariance := Resize(beaconMeasurementVariance, n, DEFAULT_MEASUREMENT_VARIANCE);
      emissionDirection := given.emission;
      ok := |emissionDirection| == n;
    }

    method SetCameraParameters()
      modifies this
      ensures View() == old(View()).(gotPose := false)
    {
      gotPose := false;
    }

    method PermitKalmanMode(permit: bool)
      modifies this
      ensures View() == old(View()).(permitKalman := permit)
    {
      permitKalman := permit;
    }

    method ForceRansacIfKalmanNeedsReset(leds: seq<Led>, ghost views: seq<LedState>) returns (needsReset: bool)
      requires Shows(leds, views)
      modifies this
      ensures needsReset == NeedsReset(old(View()), views)
      ensures View() == Reset(old(View()), views)
    {
      needsReset := framesInProbation > MAX_PROBATION_FRAMES
        || framesWithoutUtilizedMeasurements > MAX_FRAMES_WITHOUT_MEASUREMENTS;
      if !needsReset && framesWithoutIdentifiedBlobs > MAX_FRAMES_WITHOUT_ID_BLOBS {
        for i := 0 to |leds|
          invariant !needsReset && InRangeLeds(views, numBeacons) == InRangeLeds(views[i..], numBeacons)
        {
          assert views[i..][1..] == views[i + 1..];
          if leds[i].id < 0 {
            continue;
          }
          if leds[i].id < numBeacons {
            needsReset := true;
            break;
          }
        }
      }
      if needsReset {
        framesInProbation := 0;
        framesWithoutUtilizedMeasurements := 0;
        framesWithoutIdentifiedBlobs := 0;
        gotPose := false;
      }
    }

    /** The solver path, up to the reprojection check. */
    method PnpRansacEstimator(leds: seq<Led>, ghost views: seq<LedState>, ransac: Ransac) returns (ok: bool)
      requires Shows(leds, views)
      modifies this
      ensures ok == RansacSucceeds(RigView(), ransac, views)
      ensures View() == old(View()).(gotMeasurement := old(gotMeasurement) || ok)
    {
      var imagePoints, objectIds := CollectImagePoints(leds, views);
      if |imagePoints| < permittedOutliers + requiredInliers {
        return false;
      }
      if !ransac.converged {
        return false;
      }
      var rows := InlierRows(ransac, imagePoints);
      if rows < requiredInliers {
        return false;
      }
      for i := 0 to rows
        invariant forall j :: 0 <= j < i ==> Reprojects(imagePoints[j], ransac.reprojected(j))
      {
        if ransac.reprojected(i).x - imagePoints[i].x > MAX_REPROJECTION_ERROR {
          return false;
        }
        if ransac.reprojected(i).y - imagePoints[i].y > MAX_REPROJECTION_ERROR {
          return false;
        }
      }
      gotMeasurement := true;
      return true;
    }

    /** The two lists for the solver: where an LED is, and which beacon it claims to be. */
    method CollectImagePoints(leds: seq<Led>, ghost views: seq<LedState>) returns (imagePoints: seq<Point2>, objectIds: seq<int>)
      requires Shows(leds, views)
      ensures imagePoints == ImagePoints(views, numBeacons) && objectIds == ObjectIds(views, numBeacons)
    {
      ghost var found := [];
      imagePoints, objectIds := [], [];
      for i := 0 to |leds|
        invariant InRangeLeds(views, numBeacons) == found + InRangeLeds(views[i..], numBeacons)
        invariant |imagePoints| == |objectIds| == |found|
        invariant forall j :: 0 <= j < |found| ==> imagePoints[j] == found[j].latest.loc && objectIds[j] == found[j].id
      {
        assert views[i..][1..] == views[i + 1..];
        if 0 <= leds[i].id < numBeacons {
          imagePoints := imagePoints + [leds[i].latestMeasurement.loc];
          objectIds := objectIds + [leds[i].id];
          found := found + [views[i]];
        } else {
          assert [] + InRangeLeds(views[i + 1..], numBeacons) == InRangeLeds(views[i + 1..], numBeacons);
        }
      }
    }

    /** The counting loop of the Kalman path. */
    method CountInBounds(leds: seq<Led>, ghost views: seq<LedState>) returns (inBoundsID: nat, inBoundsBright: nat)
      requires Shows(leds, views)
      ensures inBoundsID == |InRangeLeds(views, numBeacons)|
      ensures inBoundsBright == |BrightLeds(views, numBeacons)|
    {
      inBoundsID, inBoundsBright := 0, 0;
      for i := 0 to |leds|
        invariant |InRangeLeds(views, numBeacons)| == inBoundsID + |InRangeLeds(views[i..], numBeacons)|
        invariant |BrightLeds(views, numBeacons)| == inBoundsBright + |BrightLeds(views[i..], numBeacons)|
      {
        assert views[i..][1..] == views[i + 1..];
        if leds[i].id < 0 {
          continue;
        }
        if leds[i].id >= numBeacons {
          continue;
        }
        inBoundsID := inBoundsID + 1;
        if leds[i].lastBright {
          inBoundsBright := inBoundsBright + 1;
        }
      }
    }

    /** The turn of one LED in the correcting loop: it is skipped, refuted or used. */
    method CorrectFromLed(led: Led, i: nat, input: Input, skipBright: bool) returns (v: Verdict)
      requires RigView().Consistent()
      modifies this`gotMeasurement, led
      ensures v == Judge(RigView(), input, skipBright, old(led.View()), i)
      ensures led.View() == Mark(old(led.View()), v)
      ensures gotMeasurement == (old(gotMeasurement) || v.Used())
    {
      if led.id < 0 {
        return Ignored;
      }
      if led.id >= numBeacons {
        return Ignored;
      }
      if skipBright && led.lastBright {
        return BrightSkipped;
      }
      var zComponent := Dot(input.rotationZ, emissionDirection[led.id]);
      if zComponent > 0.0 {
        led.MarkMisidentified();
        return Misidentified;
      } else if zComponent > params.maxZComponent {
        return ObliqueSkipped;
      }
      led.MarkAsUsed();
      v := if input.residualSquared(i) > params.maxResidual * params.maxResidual then UsedBad else UsedGood;
      gotMeasurement := true;
    }

    /** The correcting loop, with its counts of bad and good LEDs. */
    method CorrectFromLeds(leds: seq<Led>, ghost views: seq<LedState>, input: Input, skipBright: bool) returns (numBad: nat, numGood: nat)
      requires Shows(leds, views)
      requires RigView().Consistent() && Distinct(leds)
      modifies this`gotMeasurement, leds
      ensures var verdicts := JudgeAll(RigView(), input, skipBright, views);
        && Shows(leds, MarkAll(views, verdicts))
        && numBad == NumBad(verdicts) && numGood == NumGood(verdicts)
        && View() == old(View()).(gotMeasurement := old(gotMeasurement) || NumUsed(verdicts) > 0)
    {
      ghost var rig := RigView();
      ghost var verdicts := JudgeAll(rig, input, skipBright, views);
      ghost var marked := MarkAll(views, verdicts);
      ghost var anyUsed;
      numBad, numGood, anyUsed := CorrectInTurn(leds, views, input, skipBright, verdicts, marked);
      assert RigView() == rig;
    }

    /** The loop itself; `marked` is what the verdicts make of the LEDs. */
    method CorrectInTurn(leds: seq<Led>, ghost views: seq<LedState>, input: Input, skipBright: bool,
                         ghost verdicts: seq<Verdict>, ghost marked: seq<LedState>)
      returns (numBad: nat, numGood: nat, ghost anyUsed: bool)
      requires Shows(leds, views) && Distinct(leds) && RigView().Consistent()
      requires |verdicts| == |marked| == |leds|
      requires forall i :: 0 <= i < |leds| ==> verdicts[i] == Judge(RigView(), input, skipBright, views[i], i)
      requires forall i :: 0 <= i < |leds| ==> marked[i] == Mark(views[i], verdicts[i])
      modifies this`gotMeasurement, leds
      ensures Shows(leds, marked) && Counted(verdicts, numBad, numGood, anyUsed)
      ensures gotMeasurement == (old(gotMeasurement) || anyUsed)
    {
      anyUsed := false;
      numBad, numGood := 0, 0;
      for i := 0 to |leds|
        invariant forall j :: 0 <= j < i ==> leds[j].View() == marked[j]
        invariant forall j :: i <= j < |leds| ==> leds[j].View() == views[j]
        invariant Counted(verdicts[..i], numBad, numGood, anyUsed)
        invariant gotMeasurement == (old(gotMeasurement) || anyUsed)
      {
        var v := CorrectFromLed(leds[i], i, input, skipBright);
        assert v == verdicts[i] && leds[i].View() == marked[i];
        CountOneMore(verdicts, i, numBad, numGood, anyUsed);
        anyUsed := anyUsed || v.Used();
        numBad := if v.Bad() then numBad + 1 else numBad;
        numGood := if v.UsedGood? then numGood + 1 else numGood;
      }
      assert verdicts[..|leds|] == verdicts;
    }

    method UpdateProbation(numBad: nat, numGood: nat)
      modifies this`framesInProbation
      ensures framesInProbation == NextProbation(old(framesInProbation), numBad, numGood)
    {
      var incrementProbation;
      if framesInProbation == 0 {
        incrementProbation := numBad * 3 > numGood * 2;
      } else {
        incrementProbation := numBad * 2 > numGood;
        if !incrementProbation {
          framesInProbation := 0;
        }
      }
      if incrementProbation {
        framesInProbation := framesInProbation + 1;
      }
    }

    /** Counts the frame and decides about the bright LEDs before any correction. */
    method SurveyLeds(leds: seq<Led>, ghost views: seq<LedState>) returns (inBoundsID: nat, skipBright: bool)
      requires Shows(leds, views)
      modifies this`framesWithoutIdentifiedBlobs
      ensures inBoundsID == |InRangeLeds(views, numBeacons)|
      ensures skipBright == SkipBright(RigView(), views)
      ensures View() == old(View()).(withoutBlobs := NextWithoutBlobs(old(framesWithoutIdentifiedBlobs), inBoundsID))
    {
      var inBoundsBright;
      inBoundsID, inBoundsBright := CountInBounds(leds, views);
      skipBright := inBoundsID - inBoundsBright > DIM_BEACON_CUTOFF_TO_SKIP_BRIGHTS && params.shouldSkipBrightLeds;
      if inBoundsID == 0 {
        framesWithoutIdentifiedBlobs := framesWithoutIdentifiedBlobs + 1;
      } else {
        framesWithoutIdentifiedBlobs := 0;
      }
    }

    method KalmanAutocalibEstimator(leds: seq<Led>, ghost views: seq<LedState>, input: Input) returns (ok: bool)
      requires Shows(leds, views)
      requires RigView().Consistent() && Distinct(leds)
      modifies this, leds
      ensures ok
      ensures View() == AfterKalman(old(View()), input, views)
      ensures Shows(leds, MarkAll(views, Verdicts(RigView(), input, views)))
    {
      var inBoundsID, skipBright := SurveyLeds(leds, views);
      var numBad, numGood := CorrectFromLeds(leds, views, input, skipBright);
      Settle(inBoundsID, numBad, numGood);
      return true;
    }

    /** The bookkeeping after the corrections. */
    method Settle(inBoundsID: nat, numBad: nat, numGood: nat)
      modifies this
      ensures View() == old(View()).(
                probation := NextProbation(old(framesInProbation), numBad, numGood),
                withoutMeasurements := NextWithoutMeasurements(old(framesWithoutUtilizedMeasurements), gotMeasurement, inBoundsID))
    {
      UpdateProbation(numBad, numGood);
      if gotMeasurement {
        framesWithoutUtilizedMeasurements := 0;
      } else if inBoundsID > 0 {
        framesWithoutUtilizedMeasurements := framesWithoutUtilizedMeasurements + 1;
      }
    }

    /** One estimate; the new pose itself is not modelled. */
    method EstimatePoseFromLeds(leds: seq<Led>, ghost views: seq<LedState>, input: Input) returns (ok: bool)
      requires Shows(leds, views)
      requires RigView().Consistent() && Distinct(leds)
      modifies this, leds
      ensures ok == Succeeds(old(View()), input, views)
      ensures View() == Estimate(old(View()), input, views)
      ensures Shows(leds, EstimatedLeds(old(View()), input, views))
    {
      ghost var start := View();
      var didReset := ForceRansacIfKalmanNeedsReset(leds, views);
      if !gotPose || !gotPrev || !permitKalman {
        ok := PnpRansacEstimator(leds, views, input.ransac);
        SolverEstimate(start, input, views);
      } else {
        ok := KalmanAutocalibEstimator(leds, views, input);
        KalmanEstimate(start, input, views);
      }
      Finish(ok, input.tv);
    }

    static lemma SolverEstimate(est: EstimatorState, input: Input, leds: seq<LedState>)
      requires est.rig.Consistent() && !UsesKalman(est, leds)
      ensures EstimatedLeds(est, input, leds) == leds
      ensures Succeeds(est, input, leds) == RansacSucceeds(est.rig, input.ransac, leds)
      ensures Estimate(est, input, leds) == if Succeeds(est, input, leds)
                then Reset(est, leds).(gotMeasurement := true, gotPose := true, gotPrev := true, prev := input.tv)
                else Reset(est, leds).(gotPose := false)
    {
    }

    static lemma KalmanEstimate(est: EstimatorState, input: Input, leds: seq<LedState>)
      requires est.rig.Consistent() && UsesKalman(est, leds)
      ensures EstimatedLeds(est, input, leds) == MarkAll(leds, Verdicts(est.rig, input, leds)) && Succeeds(est, input, leds)
      ensures Estimate(est, input, leds) == AfterKalman(Reset(est, leds), input, leds).(prev := input.tv, gotPose := true, gotPrev := true)
    {
    }

    /** Records the time of a success, and whether there is a pose. */
    method Finish(ok: bool, tv: real)
      modifies this
      ensures View() == if ok then old(View()).(gotPose := true, gotPrev := true, prev := tv) else old(View()).(gotPose := false)
    {
      if ok {
        prev := tv;
        gotPrev := true;
      }
      gotPose := ok;
    }
  }
}
