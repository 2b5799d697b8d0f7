/** What the pose estimator keeps between frames, and what one estimate does to it and to the LEDs. */
module PoseModel {
  import opened Types
  import opened LedModel
  import opened Matching
  import opened Vectors

  const MAX_PROBATION_FRAMES: nat := 10
  const MAX_FRAMES_WITHOUT_MEASUREMENTS: nat := 50
  const MAX_FRAMES_WITHOUT_ID_BLOBS: nat := 10
  const DIM_BEACON_CUTOFF_TO_SKIP_BRIGHTS: nat := 4
  const MAX_REPROJECTION_ERROR: real := 4.0

  /** What stays the same from estimate to estimate: the configuration and the beacons. */
  datatype Rig = Rig(
    params: Params,
    numBeacons: nat,
    emission: seq<Vec3>,
    fixed: seq<bool>,
    variance: seq<real>,
    requiredInliers: nat,
    permittedOutliers: nat)
  {
    /** Beacon IDs index the emission directions. */
    predicate Consistent() {
      |emission| == numBeacons
    }
  }

  datatype EstimatorState = EstimatorState(
    rig: Rig,
    permitKalman: bool,
    gotPose: bool,
    gotPrev: bool,
    gotMeasurement: bool,
    prev: real,
    probation: nat,
    withoutMeasurements: nat,
    withoutBlobs: nat)

  /** The constructor's state: no beacons yet and nothing estimated. */
  function Fresh(params: Params, requiredInliers: nat, permittedOutliers: nat): EstimatorState {
    EstimatorState(Rig(params, 0, [], [], [], requiredInliers, permittedOutliers), true, false, false, false, 0.0, 0, 0, 0)
  }

  const DEFAULT_MEASUREMENT_VARIANCE: real := 3.0

  /** What `SetBeacons` is given: beacon positions, emission directions, variances,
      and which beacons, counted from one, are fixed. */
  datatype BeaconSet = BeaconSet(beacons: seq<Vec3>, emission: seq<Vec3>, variance: seq<real>, isFixed: nat -> bool)

  function Flags(given: BeaconSet): (flags: seq<bool>)
    ensures |flags| == |given.beacons|
  {
    seq(|given.beacons|, (i: nat) => given.isFixed(i + 1))
  }

  /** A vector's `resize`: elements that are there stay. */
  function Resize(v: seq<real>, n: nat, x: real): (r: seq<real>)
    ensures |r| == n
  {
    if |v| >= n then v[..n] else v + seq(n - |v|, i => x)
  }

  /** The tables after `SetBeacons`, as written: new flags are appended to the old ones,
      and a single variance only fills up the old list. */
  function WithBeacons(rig: Rig, given: BeaconSet): Rig {
    var n := |given.beacons|;
    var variance := if |given.variance| == 1 then Resize(rig.variance, n, given.variance[0]) else given.variance;
    rig.(numBeacons := n, emission := given.emission, fixed := rig.fixed + Flags(given),
         variance := Resize(variance, n, DEFAULT_MEASUREMENT_VARIANCE))
  }

  /** What the RANSAC solver reports: whether it converged, the indices of the points it takes
      for inliers, and where the i-th point it was given reprojects to. */
  datatype Ransac = Ransac(converged: bool, inliers: seq<nat>, reprojected: nat -> Point2)

  /** What an estimate reads besides the LEDs: the time, the z row of the predicted rotation,
      the squared residual of the i-th LED at its turn, and the solver's report. */
  datatype Input = Input(tv: real, rotationZ: Vec3, residualSquared: nat -> real, ransac: Ransac)

  // ----- Classifying the LEDs

  predicate InRange(led: LedState, numBeacons: nat) {
    Identified(led) && led.id < numBeacons
  }

  function InRangeLeds(leds: seq<LedState>, numBeacons: nat): seq<LedState> {
    Filter(leds, led => InRange(led, numBeacons))
  }

  function BrightLeds(leds: seq<LedState>, numBeacons: nat): seq<LedState> {
    Filter(leds, led => InRange(led, numBeacons) && led.lastBright)
  }

  /** Bright LEDs are skipped when configured, if more than four dim ones are left. */
  predicate SkipBright(rig: Rig, leds: seq<LedState>) {
    && |InRangeLeds(leds, rig.numBeacons)| - |BrightLeds(leds, rig.numBeacons)| > DIM_BEACON_CUTOFF_TO_SKIP_BRIGHTS
    && rig.params.shouldSkipBrightLeds
  }

  datatype Verdict = Ignored | BrightSkipped | Misidentified | ObliqueSkipped | UsedBad | UsedGood
  {
    predicate Used() { UsedBad? || UsedGood? }
    predicate Bad() { UsedBad? || Misidentified? }
  }

  function Judge(rig: Rig, input: Input, skipBright: bool, led: LedState, i: nat): Verdict
    requires rig.Consistent()
  {
    if !InRange(led, rig.numBeacons) then Ignored
    else if skipBright && led.lastBright then BrightSkipped
    else
      var zComponent := Dot(input.rotationZ, rig.emission[led.id]);
      if zComponent > 0.0 then Misidentified
      else if zComponent > rig.params.maxZComponent then ObliqueSkipped
      else if input.residualSquared(i) > rig.params.maxResidual * rig.params.maxResidual then UsedBad
      else UsedGood
  }

  function JudgeAll(rig: Rig, input: Input, skipBright: bool, leds: seq<LedState>): (v: seq<Verdict>)
    requires rig.Consistent()
    ensures |v| == |leds|
  {
    seq(|leds|, i requires 0 <= i < |leds| => Judge(rig, input, skipBright, leds[i], i))
  }

  function Verdicts(rig: Rig, input: Input, leds: seq<LedState>): (v: seq<Verdict>)
    requires rig.Consistent()
    ensures |v| == |leds|
  {
    JudgeAll(rig, input, SkipBright(rig, leds), leds)
  }

  function Tally(verdicts: seq<Verdict>, v: Verdict): nat {
    if verdicts == [] then 0
    else Tally(verdicts[..|verdicts| - 1], v) + if verdicts[|verdicts| - 1] == v then 1 else 0
  }

  function NumBad(verdicts: seq<Verdict>): nat {
    Tally(verdicts, UsedBad) + Tally(verdicts, Misidentified)
  }

  function NumGood(verdicts: seq<Verdict>): nat {
    Tally(verdicts, UsedGood)
  }

  function NumUsed(verdicts: seq<Verdict>): nat {
    Tally(verdicts, UsedGood) + Tally(verdicts, UsedBad)
  }

  /** The counters after LEDs with these verdicts. */
  ghost predicate Counted(verdicts: seq<Verdict>, numBad: nat, numGood: nat, anyUsed: bool) {
    numBad == NumBad(verdicts) && numGood == NumGood(verdicts) && anyUsed == (NumUsed(verdicts) > 0)
  }

  lemma CountOneMore(verdicts: seq<Verdict>, i: nat, numBad: nat, numGood: nat, anyUsed: bool)
    requires i < |verdicts| && Counted(verdicts[..i], numBad, numGood, anyUsed)
    ensures Counted(verdicts[..i + 1], if verdicts[i].Bad() then numBad + 1 else numBad,
                    if verdicts[i].UsedGood? then numGood + 1 else numGood, anyUsed || verdicts[i].Used())
  {
    assert verdicts[..i + 1][..i] == verdicts[..i];
  }

  /** What the Kalman pass does to one LED. */
  function Mark(led: LedState, v: Verdict): LedState {
    if v.Misidentified? then Refute(led) else if v.Used() then led.(used := true) else led
  }

  function MarkAll(leds: seq<LedState>, verdicts: seq<Verdict>): (r: seq<LedState>)
    requires |verdicts| == |leds|
    ensures |r| == |leds|
  {
    seq(|leds|, i requires 0 <= i < |leds| => Mark(leds[i], verdicts[i]))
  }

  // ----- The two ways of estimating

  /** The worse ratio keeps the filter in probation; it is harder to leave than to avoid. */
  function NextProbation(probation: nat, numBad: nat, numGood: nat): nat {
    if probation == 0 then
      if numBad * 3 > numGood * 2 then 1 else 0
    else
      if numBad * 2 > numGood then probation + 1 else 0
  }

  function AfterKalman(est: EstimatorState, input: Input, leds: seq<LedState>): EstimatorState
    requires est.rig.Consistent()
  {
    Tallied(est, Verdicts(est.rig, input, leds), |InRangeLeds(leds, est.rig.numBeacons)|)
  }

  /** The counters and flags after a Kalman pass with these verdicts. */
  function Tallied(est: EstimatorState, verdicts: seq<Verdict>, inBounds: nat): EstimatorState {
    var gotMeasurement := est.gotMeasurement || NumUsed(verdicts) > 0;
    est.(gotMeasurement := gotMeasurement,
         probation := NextProbation(est.probation, NumBad(verdicts), NumGood(verdicts)),
         withoutBlobs := NextWithoutBlobs(est.withoutBlobs, inBounds),
         withoutMeasurements := NextWithoutMeasurements(est.withoutMeasurements, gotMeasurement, inBounds))
  }

  /** Counts the frames in a row without an identified LED in range. */
  function NextWithoutBlobs(count: nat, inBounds: nat): nat {
    if inBounds == 0 then count + 1 else 0
  }

  /** Counts the frames whose identified LEDs were all rejected. */
  function NextWithoutMeasurements(count: nat, gotMeasurement: bool, inBounds: nat): nat {
    if gotMeasurement then 0 else if inBounds > 0 then count + 1 else count
  }

  function ImagePoints(leds: seq<LedState>, numBeacons: nat): (r: seq<Point2>)
    ensures |r| == |InRangeLeds(leds, numBeacons)|
  {
    var found := InRangeLeds(leds, numBeacons);
    seq(|found|, i requires 0 <= i < |found| => found[i].latest.loc)
  }

  /** The IDs of the beacons that the image points are paired with. */
  function ObjectIds(leds: seq<LedState>, numBeacons: nat): (r: seq<int>)
    ensures |r| == |ImagePoints(leds, numBeacons)|
  {
    var found := InRangeLeds(leds, numBeacons);
    seq(|found|, i requires 0 <= i < |found| => found[i].id)
  }

  /** The solver names no point twice, and only points that it was given. */
  function Inliers(ransac: Ransac, n: nat): (named: seq<nat>)
    ensures forall i :: 0 <= i < |named| ==> named[i] < n
    ensures forall i, j :: 0 <= i < j < |named| ==> named[i] != named[j]
  {
    Named(ransac.inliers, n)
  }

  function Named(indices: seq<nat>, n: nat): (named: seq<nat>)
    ensures forall i :: 0 <= i < |named| ==> named[i] < n
    ensures forall i, j :: 0 <= i < j < |named| ==> named[i] != named[j]
  {
    if indices == [] then []
    else
      var last := |indices| - 1;
      var named := Named(indices[..last], n);
      if indices[last] < n && indices[last] !in named then named + [indices[last]] else named
  }

  /** A list as the solver makes it is taken as it is. */
  lemma {:induction false} DistinctAreNamed(indices: seq<nat>, n: nat)
    requires forall i :: 0 <= i < |indices| ==> indices[i] < n
    requires forall i, j :: 0 <= i < j < |indices| ==> indices[i] != indices[j]
    ensures Named(indices, n) == indices
  {
    if indices != [] {
      var last := |indices| - 1;
      DistinctAreNamed(indices[..last], n);
      assert indices == indices[..last] + [indices[last]];
    }
  }

  function Below(n: nat): (r: set<nat>)
    ensures |r| == n && forall i: nat :: i in r <==> i < n
  {
    if n == 0 then {} else Below(n - 1) + {n - 1}
  }

  function Elements(s: seq<nat>): (r: set<nat>)
    ensures forall x :: x in r <==> x in s
  {
    if s == [] then {}
    else
      assert s == s[..|s| - 1] + [s[|s| - 1]];
      Elements(s[..|s| - 1]) + {s[|s| - 1]}
  }

  lemma {:induction false} AsManyElements(s: seq<nat>)
    requires forall i, j :: 0 <= i < j < |s| ==> s[i] != s[j]
    ensures |Elements(s)| == |s|
  {
    if s != [] {
      AsManyElements(s[..|s| - 1]);
      assert s[|s| - 1] !in s[..|s| - 1];
    }
  }

  lemma DistinctBelow(named: seq<nat>, n: nat)
    requires forall i :: 0 <= i < |named| ==> named[i] < n
    requires forall i, j :: 0 <= i < j < |named| ==> named[i] != named[j]
    ensures |named| <= n
  {
    AsManyElements(named);
    Smaller(Elements(named), Below(n));
  }

  lemma Smaller(a: set<nat>, b: set<nat>)
    requires a <= b
    ensures |a| <= |b|
    decreases |a|
  {
    if a != {} {
      var x :| x in a;
      Smaller(a - {x}, b - {x});
    }
  }

  /** As many rows as the solver's list of inliers has. */
  function InlierRows(ransac: Ransac, points: seq<Point2>): (rows: nat)
    ensures rows <= |points|
  {
    DistinctBelow(Inliers(ransac, |points|), |points|);
    |Inliers(ransac, |points|)|
  }

  /** The reprojection check as written: it looks at the first `rows` points, and only
      for errors towards larger coordinates. */
  predicate Reprojects(seen: Point2, reprojected: Point2) {
    && reprojected.x - seen.x <= MAX_REPROJECTION_ERROR
    && reprojected.y - seen.y <= MAX_REPROJECTION_ERROR
  }

  predicate RansacSucceeds(rig: Rig, ransac: Ransac, leds: seq<LedState>) {
    var points := ImagePoints(leds, rig.numBeacons);
    var rows := InlierRows(ransac, points);
    && |points| >= rig.permittedOutliers + rig.requiredInliers
    && ransac.converged
    && rows >= rig.requiredInliers
    && forall i :: 0 <= i < rows ==> Reprojects(points[i], ransac.reprojected(i))
  }

  // ----- One estimate

  /** The filter has gone astray: a bad ratio, or measurements all rejected, for too long. */
  predicate Astray(est: EstimatorState) {
    || est.probation > MAX_PROBATION_FRAMES
    || est.withoutMeasurements > MAX_FRAMES_WITHOUT_MEASUREMENTS
  }

  predicate NeedsReset(est: EstimatorState, leds: seq<LedState>) {
    || Astray(est)
    || (est.withoutBlobs > MAX_FRAMES_WITHOUT_ID_BLOBS && InRangeLeds(leds, est.rig.numBeacons) != [])
  }

  function Reset(est: EstimatorState, leds: seq<LedState>): EstimatorState {
    if NeedsReset(est, leds) then
      est.(probation := 0, withoutMeasurements := 0, withoutBlobs := 0, gotPose := false)
    else est
  }

  predicate UsesKalman(est: EstimatorState, leds: seq<LedState>) {
    var checked := Reset(est, leds);
    checked.gotPose && checked.gotPrev && checked.permitKalman
  }

  predicate Succeeds(est: EstimatorState, input: Input, leds: seq<LedState>) {
    UsesKalman(est, leds) || RansacSucceeds(est.rig, input.ransac, leds)
  }

  /** The estimator after `EstimatePoseFromLeds`. */
  function Estimate(est: EstimatorState, input: Input, leds: seq<LedState>): (next: EstimatorState)
    requires est.rig.Consistent()
    ensures next.rig == est.rig
  {
    var checked := Reset(est, leds);
    if UsesKalman(est, leds) then
      AfterKalman(checked, input, leds).(prev := input.tv)
    else if RansacSucceeds(est.rig, input.ransac, leds) then
      checked.(gotMeasurement := true, gotPose := true, gotPrev := true, prev := input.tv)
    else
      checked.(gotPose := false)
  }

  /** The LEDs after `EstimatePoseFromLeds`: only the Kalman path touches them. */
  function EstimatedLeds(est: EstimatorState, input: Input, leds: seq<LedState>): (r: seq<LedState>)
    requires est.rig.Consistent()
    ensures |r| == |leds|
  {
    if UsesKalman(est, leds) then MarkAll(leds, Verdicts(est.rig, input, leds)) else leds
  }
}
