/** What the check after RANSAC says about the inliers that the solver named. */
module ReprojectionCheck {
  import opened Types
  import opened LedModel
  import opened PoseModel

  /** The largest error of an inlier that the solver is asked to accept. */
  const SOLVER_ERROR: real := 8.0

  /** A report as the solver makes it: a list of distinct points that it was given, all within its own bound. */
  ghost predicate Honest(ransac: Ransac, points: seq<Point2>) {
    && ransac.inliers == Inliers(ransac, |points|)
    && forall i :: 0 <= i < |ransac.inliers| ==> Within(points, ransac, ransac.inliers[i])
  }

  ghost predicate Within(points: seq<Point2>, ransac: Ransac, k: nat) {
    k < |points| && DistSquared(points[k], ransac.reprojected(k)) <= SOLVER_ERROR * SOLVER_ERROR
  }

  /** The point reprojects to no more than four pixels further left or up. */
  predicate NotShort(seen: Point2, reprojected: Point2) {
    && seen.x - reprojected.x <= 4.0
    && seen.y - reprojected.y <= 4.0
  }

  /** The point reprojects to no more than four pixels away on either axis. */
  predicate Close(seen: Point2, reprojected: Point2) {
    && -4.0 <= reprojected.x - seen.x <= 4.0
    && -4.0 <= reprojected.y - seen.y <= 4.0
  }

  ghost predicate AllClose(ransac: Ransac, points: seq<Point2>) {
    forall i :: 0 <= i < |Inliers(ransac, |points|)| ==>
      Close(points[Inliers(ransac, |points|)[i]], ransac.reprojected(Inliers(ransac, |points|)[i]))
  }

  /** After a success all named inliers are close if and only if none errs too far left or up, and those
      beyond the first rows, which nobody looked at, do not err too far right or down either. */
  lemma InliersCloseIff(rig: Rig, ransac: Ransac, leds: seq<LedState>)
    requires RansacSucceeds(rig, ransac, leds)
    ensures var points := ImagePoints(leds, rig.numBeacons);
      var named := Inliers(ransac, |points|);
      AllClose(ransac, points) <==>
        && (forall i :: 0 <= i < |named| ==> NotShort(points[named[i]], ransac.reprojected(named[i])))
        && (forall i :: 0 <= i < |named| && named[i] >= |named| ==> Reprojects(points[named[i]], ransac.reprojected(named[i])))
  {
    var points := ImagePoints(leds, rig.numBeacons);
    var named := Inliers(ransac, |points|);
    forall i | 0 <= i < |named| && named[i] < |named|
      ensures Reprojects(points[named[i]], ransac.reprojected(named[i]))
    {
      assert InlierRows(ransac, points) == |named|;
    }
    forall i | 0 <= i < |named|
      ensures var seen, r := points[named[i]], ransac.reprojected(named[i]);
        Close(seen, r) <==> Reprojects(seen, r) && NotShort(seen, r)
    {
    }
  }

  /** The bound to the left is missing: moving all points any distance left and up changes no success. */
  lemma CheckIsOneSided(rig: Rig, ransac: Ransac, leds: seq<LedState>, dx: real, dy: real)
    requires RansacSucceeds(rig, ransac, leds) && dx >= 0.0 && dy >= 0.0
    ensures RansacSucceeds(rig, Shift(ransac, dx, dy), leds)
  {
    var points := ImagePoints(leds, rig.numBeacons);
    forall i | 0 <= i < InlierRows(ransac, points) ensures Reprojects(points[i], Shift(ransac, dx, dy).reprojected(i)) {
      assert Reprojects(points[i], ransac.reprojected(i));
    }
  }

  function Shift(ransac: Ransac, dx: real, dy: real): Ransac {
    ransac.(reprojected := (i: nat) => Point2(ransac.reprojected(i).x - dx, ransac.reprojected(i).y - dy))
  }

  // ----- Reports that the solver can make

  /** The indices of n points from the given one on. */
  function From(first: nat, n: nat): (indices: seq<nat>)
    requires first <= n
    ensures |indices| == n - first && forall i :: 0 <= i < |indices| ==> indices[i] == first + i
  {
    seq(n - first, i requires 0 <= i < n - first => first + i)
  }

  /** Everything reprojects exactly, except for the k-th point if it is in this range, which is off by so much. */
  function Off(points: seq<Point2>, low: nat, high: nat, dx: real): nat -> Point2 {
    (k: nat) =>
      if k >= |points| then Point2(0.0, 0.0)
      else if low <= k < high then Point2(points[k].x + dx, points[k].y)
      else points[k]
  }

  lemma OffBy(points: seq<Point2>, low: nat, high: nat, dx: real, k: nat)
    requires k < |points|
    ensures DistSquared(points[k], Off(points, low, high, dx)(k)) == if low <= k < high then dx * dx else 0.0
  {
    var p, q := points[k], Off(points, low, high, dx)(k);
    if low <= k < high {
      assert (p.x - q.x) * (p.x - q.x) == dx * dx;
    }
  }

  lemma HonestOff(points: seq<Point2>, first: nat, low: nat, high: nat, dx: real)
    requires first <= |points| && dx * dx <= SOLVER_ERROR * SOLVER_ERROR
    ensures Honest(Ransac(true, From(first, |points|), Off(points, low, high, dx)), points)
  {
    var ransac := Ransac(true, From(first, |points|), Off(points, low, high, dx));
    DistinctAreNamed(ransac.inliers, |points|);
    forall i | 0 <= i < |ransac.inliers| ensures Within(points, ransac, ransac.inliers[i]) {
      OffBy(points, low, high, dx, ransac.inliers[i]);
    }
  }

  predicate EnoughPoints(rig: Rig, n: nat, inliers: nat) {
    n >= rig.permittedOutliers + rig.requiredInliers && inliers >= rig.requiredInliers
  }

  /** On every set of points that is large enough the solver can report inliers that are all
      six pixels too far left, and the check accepts them. */
  lemma LeftErrorAccepted(rig: Rig, leds: seq<LedState>) returns (ransac: Ransac)
    requires var n := |ImagePoints(leds, rig.numBeacons)|; n >= 1 && EnoughPoints(rig, n, n)
    ensures var points := ImagePoints(leds, rig.numBeacons);
      && Honest(ransac, points) && RansacSucceeds(rig, ransac, leds)
      && |ransac.inliers| == |points|
      && forall k :: 0 <= k < |points| ==> k in ransac.inliers && ransac.reprojected(k).x == points[k].x - 6.0
  {
    var points := ImagePoints(leds, rig.numBeacons);
    ransac := Ransac(true, From(0, |points|), Off(points, 0, |points|, -6.0));
    HonestOff(points, 0, 0, |points|, -6.0);
    forall k | 0 <= k < |points| ensures k in ransac.inliers {
      assert ransac.inliers[k] == k;
    }
  }

  /** The solver can name an inlier beyond the first rows that is six pixels too far right. The check accepts that too. */
  lemma NamedInlierUnchecked(rig: Rig, leds: seq<LedState>) returns (ransac: Ransac)
    requires var n := |ImagePoints(leds, rig.numBeacons)|; n >= 2 && EnoughPoints(rig, n, n - 1)
    ensures var points := ImagePoints(leds, rig.numBeacons);
      && Honest(ransac, points) && RansacSucceeds(rig, ransac, leds)
      && |points| - 1 in ransac.inliers && ransac.reprojected(|points| - 1).x == points[|points| - 1].x + 6.0
  {
    var points := ImagePoints(leds, rig.numBeacons);
    var last := |points| - 1;
    ransac := Ransac(true, From(1, |points|), Off(points, last, last + 1, 6.0));
    HonestOff(points, 1, last, last + 1, 6.0);
    assert ransac.inliers[last - 1] == last;
  }

  /** The solver can converge, name enough inliers that all reproject exactly, and be turned down
      for an outlier among the first rows. */
  lemma OutlierTurnsDown(rig: Rig, leds: seq<LedState>) returns (ransac: Ransac)
    requires var n := |ImagePoints(leds, rig.numBeacons)|; n >= 2 && EnoughPoints(rig, n, n - 1)
    ensures var points := ImagePoints(leds, rig.numBeacons);
      && Good(rig, ransac, points) && !RansacSucceeds(rig, ransac, leds)
      && |ransac.inliers| == |points| - 1
      && forall i :: 0 <= i < |ransac.inliers| ==> ransac.inliers[i] < |points| && ransac.reprojected(ransac.inliers[i]) == points[ransac.inliers[i]]
  {
    var points := ImagePoints(leds, rig.numBeacons);
    ransac := Ransac(true, From(1, |points|), Off(points, 0, 1, 6.0));
    HonestOff(points, 1, 0, 1, 6.0);
    assert !Reprojects(points[0], ransac.reprojected(0));
  }

  // ----- When the check is right

  /** What the check is there to let through: the solver converged on enough inliers, all of them close. */
  ghost predicate Good(rig: Rig, ransac: Ransac, points: seq<Point2>) {
    Honest(ransac, points) && ransac.converged && |ransac.inliers| >= rig.requiredInliers && AllClose(ransac, points)
  }

  /** Whatever the solver reports, an accepted solution has close inliers only: this holds if and only
      if there is nothing to accept, because there are no points or fewer than the least number. */
  lemma AcceptedAreCloseIff(rig: Rig, leds: seq<LedState>)
    ensures var points := ImagePoints(leds, rig.numBeacons);
      (forall ransac :: Honest(ransac, points) && RansacSucceeds(rig, ransac, leds) ==> AllClose(ransac, points))
      <==> points == [] || |points| < rig.permittedOutliers + rig.requiredInliers
  {
    var points := ImagePoints(leds, rig.numBeacons);
    if |points| >= 1 && |points| >= rig.permittedOutliers + rig.requiredInliers {
      var ransac := LeftErrorAccepted(rig, leds);
      assert !Close(points[ransac.inliers[0]], ransac.reprojected(ransac.inliers[0]));
      assert !AllClose(ransac, points);
    }
  }

  /** Whatever the solver reports, close inliers are accepted once there are points enough: this holds if and
      only if there is at most one point, or so few that all of them must be inliers. */
  lemma CloseAreAcceptedIff(rig: Rig, leds: seq<LedState>)
    requires |ImagePoints(leds, rig.numBeacons)| >= rig.permittedOutliers + rig.requiredInliers
    ensures var points := ImagePoints(leds, rig.numBeacons);
      (forall ransac :: Good(rig, ransac, points) ==> RansacSucceeds(rig, ransac, leds))
      <==> |points| <= 1 || |points| == rig.requiredInliers
  {
    var points := ImagePoints(leds, rig.numBeacons);
    if |points| <= 1 || |points| == rig.requiredInliers {
      forall ransac | Good(rig, ransac, points) ensures RansacSucceeds(rig, ransac, leds) {
        GoodAccepted(rig, ransac, leds);
      }
    } else {
      var ransac := OutlierTurnsDown(rig, leds);
    }
  }

  lemma GoodAccepted(rig: Rig, ransac: Ransac, leds: seq<LedState>)
    requires var points := ImagePoints(leds, rig.numBeacons);
      && |points| >= rig.permittedOutliers + rig.requiredInliers
      && Good(rig, ransac, points) && (|points| <= 1 || |points| == rig.requiredInliers)
    ensures RansacSucceeds(rig, ransac, leds)
  {
    var points := ImagePoints(leds, rig.numBeacons);
    var named := Inliers(ransac, |points|);
    DistinctBelow(named, |points|);
    forall i | 0 <= i < |named| ensures Reprojects(points[i], ransac.reprojected(i)) {
      AllNamed(named, |points|, i);
      var k :| 0 <= k < |named| && named[k] == i;
      assert Close(points[named[k]], ransac.reprojected(named[k]));
    }
  }

  /** As many distinct indices as there are include every one. */
  lemma AllNamed(named: seq<nat>, n: nat, i: nat)
    requires forall j :: 0 <= j < |named| ==> named[j] < n
    requires forall j, k :: 0 <= j < k < |named| ==> named[j] != named[k]
    requires |named| == n && i < n
    ensures i in named
  {
    if i !in named {
      AsManyElements(named);
      Smaller(Elements(named), Below(n) - {i});
    }
  }
}
