/** Where a pose comes from, over every history of the estimator. */
module PoseOrigin {
  import opened Types
  import opened LedModel
  import opened Matching
  import opened PoseModel
  import opened PoseHistory

  /** The solver was given enough points, it converged, it named as many distinct ones among them as inliers are required, and
      of the first points, as many as it named, none reprojects more than 4 pixels too far right or down. */
  ghost predicate Supported(numBeacons: nat, requiredInliers: nat, permittedOutliers: nat, ransac: Ransac, leds: seq<LedState>) {
    var points := ImagePoints(leds, numBeacons);
    && |points| >= permittedOutliers + requiredInliers && ransac.converged
    && exists named: seq<nat> :: |named| >= requiredInliers && DistinctAmong(named, ransac.inliers, |points|)
         && forall i :: 0 <= i < |named| && i < |points| ==>
              ransac.reprojected(i).x - points[i].x <= 4.0 && ransac.reprojected(i).y - points[i].y <= 4.0
  }

  /** Distinct indices of points, all of which the solver named. */
  ghost predicate DistinctAmong(named: seq<nat>, inliers: seq<nat>, n: nat) {
    && (forall i :: 0 <= i < |named| ==> named[i] < n && named[i] in inliers)
    && (forall i, j :: 0 <= i < j < |named| ==> named[i] != named[j])
  }

  lemma {:induction false} NamedAmong(indices: seq<nat>, n: nat)
    ensures DistinctAmong(Named(indices, n), indices, n)
  {
    if indices != [] {
      NamedAmong(indices[..|indices| - 1], n);
      assert indices == indices[..|indices| - 1] + [indices[|indices| - 1]];
    }
  }

  /** No solution is accepted without the required inliers. */
  lemma AcceptedIsSupported(rig: Rig, ransac: Ransac, leds: seq<LedState>)
    requires RansacSucceeds(rig, ransac, leds)
    ensures Supported(rig.numBeacons, rig.requiredInliers, rig.permittedOutliers, ransac, leds)
  {
    var points := ImagePoints(leds, rig.numBeacons);
    var named := Inliers(ransac, |points|);
    NamedAmong(ransac.inliers, |points|);
    forall i | 0 <= i < |named| && i < |points|
      ensures ransac.reprojected(i).x - points[i].x <= 4.0 && ransac.reprojected(i).y - points[i].y <= 4.0
    {
      assert Reprojects(points[i], ransac.reprojected(i));
    }
  }

  /** A report of too few inliers is turned down, whatever else it says. */
  lemma TooFewTurnedDown(rig: Rig, ransac: Ransac, leds: seq<LedState>)
    requires |ransac.inliers| < rig.requiredInliers
             || |ImagePoints(leds, rig.numBeacons)| < rig.permittedOutliers + rig.requiredInliers || !ransac.converged
    ensures !RansacSucceeds(rig, ransac, leds)
  {
    NamedAtMost(ransac.inliers, |ImagePoints(leds, rig.numBeacons)|);
  }

  lemma {:induction false} NamedAtMost(indices: seq<nat>, n: nat)
    ensures |Named(indices, n)| <= |indices|
  {
    if indices != [] {
      NamedAtMost(indices[..|indices| - 1], n);
    }
  }

  /** The k-th call is an estimate that the solver supports. */
  ghost predicate SetUpBySolver(start: EstimatorState, calls: seq<Call>, k: nat, requiredInliers: nat, permittedOutliers: nat)
    requires start.rig.Consistent() && k < |calls|
  {
    && calls[k].EstimatePose?
    && !UsesKalman(Run(start, calls[..k]), calls[k].leds)
    && Supported(Run(start, calls[..k]).rig.numBeacons, requiredInliers, permittedOutliers, calls[k].input.ransac, calls[k].leds)
  }

  /** The k-th call keeps a pose going: an estimate on the Kalman path, or a change of permission. */
  ghost predicate CarriesOn(start: EstimatorState, calls: seq<Call>, k: nat)
    requires start.rig.Consistent() && k < |calls|
  {
    calls[k].PermitKalman? || (calls[k].EstimatePose? && UsesKalman(Run(start, calls[..k]), calls[k].leds))
  }

  lemma OriginOfPrefix(start: EstimatorState, calls: seq<Call>, k: nat, requiredInliers: nat, permittedOutliers: nat)
    requires start.rig.Consistent() && calls != [] && k < |calls| - 1
    ensures SetUpBySolver(start, calls, k, requiredInliers, permittedOutliers)
            == SetUpBySolver(start, Init(calls), k, requiredInliers, permittedOutliers)
    ensures CarriesOn(start, calls, k) == CarriesOn(start, Init(calls), k)
  {
    assert Init(calls)[..k] == calls[..k];
  }

  lemma {:induction false} NumbersStay(params: Params, requiredInliers: nat, permittedOutliers: nat, calls: seq<Call>)
    ensures var rig := Run(Fresh(params, requiredInliers, permittedOutliers), calls).rig;
      rig.requiredInliers == requiredInliers && rig.permittedOutliers == permittedOutliers && rig.params == params
  {
    if calls != [] {
      NumbersStay(params, requiredInliers, permittedOutliers, Init(calls));
    }
  }

  /** Every pose that stands was set up by the solver, on enough points and with the inliers required of the constructor,
      and only estimates on the Kalman path and changes of permission came since. */
  lemma {:induction false} PoseHasOrigin(params: Params, requiredInliers: nat, permittedOutliers: nat, calls: seq<Call>) returns (origin: nat)
    requires PoseStands(Fresh(params, requiredInliers, permittedOutliers), calls)
    ensures var start := Fresh(params, requiredInliers, permittedOutliers);
      && origin < |calls| && SetUpBySolver(start, calls, origin, requiredInliers, permittedOutliers)
      && forall k :: origin < k < |calls| ==> CarriesOn(start, calls, k)
    decreases |calls|
  {
    var start, n := Fresh(params, requiredInliers, permittedOutliers), |calls| - 1;
    if CarriesOn(start, calls, n) {
      CarriedOnStood(params, requiredInliers, permittedOutliers, calls);
      origin := PoseHasOrigin(params, requiredInliers, permittedOutliers, Init(calls));
      OriginStays(start, calls, origin, requiredInliers, permittedOutliers);
    } else {
      SolverIsOrigin(params, requiredInliers, permittedOutliers, calls);
      origin := n;
    }
  }

  lemma SolverIsOrigin(params: Params, requiredInliers: nat, permittedOutliers: nat, calls: seq<Call>)
    requires var start := Fresh(params, requiredInliers, permittedOutliers);
      PoseStands(start, calls) && !CarriesOn(start, calls, |calls| - 1)
    ensures SetUpBySolver(Fresh(params, requiredInliers, permittedOutliers), calls, |calls| - 1, requiredInliers, permittedOutliers)
  {
    var before, last := Run(Fresh(params, requiredInliers, permittedOutliers), Init(calls)), Last(calls);
    NumbersStay(params, requiredInliers, permittedOutliers, Init(calls));
    AcceptedIsSupported(before.rig, last.input.ransac, last.leds);
  }

  lemma CarriedOnStood(params: Params, requiredInliers: nat, permittedOutliers: nat, calls: seq<Call>)
    requires var start := Fresh(params, requiredInliers, permittedOutliers);
      PoseStands(start, calls) && CarriesOn(start, calls, |calls| - 1)
    ensures PoseStands(Fresh(params, requiredInliers, permittedOutliers), Init(calls))
  {
    if Last(calls).EstimatePose? {
      KalmanPathIff(params, requiredInliers, permittedOutliers, Init(calls), Last(calls).input, Last(calls).leds);
    }
  }

  lemma OriginStays(start: EstimatorState, calls: seq<Call>, origin: nat, requiredInliers: nat, permittedOutliers: nat)
    requires start.rig.Consistent() && calls != [] && origin < |calls| - 1
    requires SetUpBySolver(start, Init(calls), origin, requiredInliers, permittedOutliers)
    requires forall k :: origin < k < |calls| - 1 ==> CarriesOn(start, Init(calls), k)
    requires CarriesOn(start, calls, |calls| - 1)
    ensures SetUpBySolver(start, calls, origin, requiredInliers, permittedOutliers)
    ensures forall k :: origin < k < |calls| ==> CarriesOn(start, calls, k)
  {
    OriginOfPrefix(start, calls, origin, requiredInliers, permittedOutliers);
    CarriesOnPrefix(start, calls, origin);
  }

  lemma CarriesOnPrefix(start: EstimatorState, calls: seq<Call>, origin: nat)
    requires start.rig.Consistent() && calls != [] && origin < |calls| - 1
    requires forall k :: origin < k < |calls| - 1 ==> CarriesOn(start, Init(calls), k)
    requires CarriesOn(start, calls, |calls| - 1)
    ensures forall k :: origin < k < |calls| ==> CarriesOn(start, calls, k)
  {
    forall k | origin < k < |calls| - 1 ensures CarriesOn(start, calls, k) {
      OriginOfPrefix(start, calls, k, 0, 0);
    }
  }
}
