/** What a Kalman pass does to each LED and what it counts, told from what the LEDs and their beacons are. */
module KalmanPass {
  import opened Types
  import opened LedModel
  import opened Vectors
  import opened PoseModel
  import PoseHistory

  /** The LED claims to be one of the beacons. */
  predicate Claims(rig: Rig, led: LedState) {
    0 <= led.id < rig.numBeacons
  }

  /** How far the beacon that the LED claims to be points away from the camera; a beacon that points at it is negative. */
  function Away(rig: Rig, input: Input, led: LedState): real
    requires rig.Consistent() && Claims(rig, led)
  {
    var r, e := input.rotationZ, rig.emission[led.id];
    r.x * e.x + r.y * e.y + r.z * e.z
  }

  /** The LEDs that claim a beacon and are not bright. */
  ghost function Dim(rig: Rig, leds: seq<LedState>): set<nat> {
    set i: nat | i < |leds| && Claims(rig, leds[i]) && !leds[i].lastBright
  }

  /** The LED is bright, and bright ones can be done without. */
  ghost predicate Dispensable(rig: Rig, leds: seq<LedState>, i: nat)
    requires i < |leds|
  {
    rig.params.shouldSkipBrightLeds && leds[i].lastBright && |Dim(rig, leds)| >= 5
  }

  /** The LED claims a beacon and is looked at. */
  ghost predicate LookedAt(rig: Rig, leds: seq<LedState>, i: nat)
    requires i < |leds|
  {
    Claims(rig, leds[i]) && !Dispensable(rig, leds, i)
  }

  /** The LED is looked at, and faces the camera well enough to be of use. */
  ghost predicate FacesWell(rig: Rig, input: Input, leds: seq<LedState>, i: nat)
    requires rig.Consistent() && i < |leds|
  {
    LookedAt(rig, leds, i) && Away(rig, input, leds[i]) <= 0.0 && Away(rig, input, leds[i]) <= rig.params.maxZComponent
  }

  ghost predicate FarOff(rig: Rig, input: Input, i: nat) {
    input.residualSquared(i) > rig.params.maxResidual * rig.params.maxResidual
  }

  // ----- Counting with filters and with sets

  function PlacesWhere<T>(s: seq<T>, keep: T -> bool): (places: set<nat>)
    ensures forall i: nat :: i in places <==> i < |s| && keep(s[i])
  {
    set i: nat | i < |s| && keep(s[i])
  }

  lemma PlacesOfPrefix<T>(s: seq<T>, keep: T -> bool)
    requires s != []
    ensures PlacesWhere(s, keep) == PlacesWhere(s[..|s| - 1], keep) + if keep(s[|s| - 1]) then {|s| - 1} else {}
  {
  }

  lemma {:induction false} FilterCounts<T>(s: seq<T>, keep: T -> bool)
    ensures |Filter(s, keep)| == |PlacesWhere(s, keep)|
    decreases |s|
  {
    if s != [] {
      var n := |s| - 1;
      FilterCounts(s[..n], keep);
      assert s == s[..n] + [s[n]];
      PoseHistory.FilterSnoc(s[..n], s[n], keep);
      PlacesOfPrefix(s, keep);
    } else {
      assert PlacesWhere(s, keep) == {};
    }
  }

  lemma {:induction false} TallyCounts(verdicts: seq<Verdict>, v: Verdict)
    ensures Tally(verdicts, v) == |PlacesWhere(verdicts, (w: Verdict) => w == v)|
  {
    if verdicts != [] {
      TallyCounts(verdicts[..|verdicts| - 1], v);
      PlacesOfPrefix(verdicts, (w: Verdict) => w == v);
    } else {
      assert PlacesWhere(verdicts, (w: Verdict) => w == v) == {};
    }
  }

  /** Bright LEDs are done without just when at least five others claim beacons. */
  lemma SkipIff(rig: Rig, leds: seq<LedState>)
    ensures SkipBright(rig, leds) <==> rig.params.shouldSkipBrightLeds && |Dim(rig, leds)| >= 5
  {
    var inRange, bright := (led: LedState) => InRange(led, rig.numBeacons), (led: LedState) => InRange(led, rig.numBeacons) && led.lastBright;
    FilterCounts(leds, inRange);
    FilterCounts(leds, bright);
    FilterIs(leds, rig.numBeacons);
    var all, some := PlacesWhere(leds, inRange), PlacesWhere(leds, bright);
    assert all == some + Dim(rig, leds) && some !! Dim(rig, leds);
  }

  lemma FilterIs(leds: seq<LedState>, numBeacons: nat)
    ensures |InRangeLeds(leds, numBeacons)| == |Filter(leds, (led: LedState) => InRange(led, numBeacons))|
    ensures |BrightLeds(leds, numBeacons)| == |Filter(leds, (led: LedState) => InRange(led, numBeacons) && led.lastBright)|
  {
    SameFilter(leds, (led: LedState) => InRange(led, numBeacons), led => InRange(led, numBeacons));
    SameFilter(leds, (led: LedState) => InRange(led, numBeacons) && led.lastBright, led => InRange(led, numBeacons) && led.lastBright);
  }

  lemma {:induction false} SameFilter<T>(s: seq<T>, f: T -> bool, g: T -> bool)
    requires forall x :: f(x) == g(x)
    ensures Filter(s, f) == Filter(s, g)
  {
    if s != [] {
      SameFilter(s[1..], f, g);
    }
  }

  // ----- One LED

  lemma JudgedBy(rig: Rig, input: Input, leds: seq<LedState>, i: nat)
    requires rig.Consistent() && i < |leds|
    ensures var v := Verdicts(rig, input, leds)[i];
      && (v.Misidentified? <==> LookedAt(rig, leds, i) && Away(rig, input, leds[i]) > 0.0)
      && (v.UsedGood? <==> FacesWell(rig, input, leds, i) && !FarOff(rig, input, i))
      && (v.UsedBad? <==> FacesWell(rig, input, leds, i) && FarOff(rig, input, i))
  {
    SkipIff(rig, leds);
  }

  /** On the Kalman path an LED that claims a beacon and is looked at loses its ID if and only if that beacon faces away;
      it is used if and only if the beacon faces the camera well enough; otherwise, and if it is not
      looked at, it is left alone. */
  lemma WhatHappensTo(est: EstimatorState, input: Input, leds: seq<LedState>, i: nat)
    requires est.rig.Consistent() && UsesKalman(est, leds) && i < |leds|
    ensures var led, next := leds[i], EstimatedLeds(est, input, leds)[i];
      && (next.id != led.id <==> LookedAt(est.rig, leds, i) && Away(est.rig, input, led) > 0.0)
      && (next.id != led.id ==> next.id == -1 && next.history == if led.history == [] then [] else [led.latest.brightness])
      && (next.used <==> led.used || FacesWell(est.rig, input, leds, i))
      && (next.id == led.id ==> next == led.(used := next.used))
  {
    JudgedBy(est.rig, input, leds, i);
  }

  /** On the solver path every LED is left alone. */
  lemma SolverLeavesAlone(est: EstimatorState, input: Input, leds: seq<LedState>)
    requires est.rig.Consistent() && !UsesKalman(est, leds)
    ensures EstimatedLeds(est, input, leds) == leds
  {
  }

  // ----- The counts

  /** The LEDs that count as good, and those that count as bad. */
  ghost function Good(rig: Rig, input: Input, leds: seq<LedState>): set<nat>
    requires rig.Consistent()
  {
    set i: nat | i < |leds| && FacesWell(rig, input, leds, i) && !FarOff(rig, input, i)
  }

  ghost function Bad(rig: Rig, input: Input, leds: seq<LedState>): set<nat>
    requires rig.Consistent()
  {
    set i: nat | i < |leds| && LookedAt(rig, leds, i) &&
      (Away(rig, input, leds[i]) > 0.0 || (FacesWell(rig, input, leds, i) && FarOff(rig, input, i)))
  }

  /** Good are the LEDs that face the camera well with a small residual; bad are those
      that face it well with a large one and those that face away. */
  lemma Counts(rig: Rig, input: Input, leds: seq<LedState>)
    requires rig.Consistent()
    ensures NumGood(Verdicts(rig, input, leds)) == |Good(rig, input, leds)|
    ensures NumBad(Verdicts(rig, input, leds)) == |Bad(rig, input, leds)|
  {
    var verdicts := Verdicts(rig, input, leds);
    TallyCounts(verdicts, UsedGood);
    TallyCounts(verdicts, UsedBad);
    TallyCounts(verdicts, Misidentified);
    PlacesOfVerdicts(rig, input, leds);
    var far, away := PlacesWhere(verdicts, (w: Verdict) => w == UsedBad), PlacesWhere(verdicts, (w: Verdict) => w == Misidentified);
    assert far !! away;
  }

  lemma PlacesOfVerdicts(rig: Rig, input: Input, leds: seq<LedState>)
    requires rig.Consistent()
    ensures var verdicts := Verdicts(rig, input, leds);
      && PlacesWhere(verdicts, (w: Verdict) => w == UsedGood) == Good(rig, input, leds)
      && PlacesWhere(verdicts, (w: Verdict) => w == UsedBad) + PlacesWhere(verdicts, (w: Verdict) => w == Misidentified) == Bad(rig, input, leds)
  {
    forall i: nat | i < |leds|
      ensures Verdicts(rig, input, leds)[i].Misidentified? <==> LookedAt(rig, leds, i) && Away(rig, input, leds[i]) > 0.0
      ensures Verdicts(rig, input, leds)[i].UsedGood? <==> FacesWell(rig, input, leds, i) && !FarOff(rig, input, i)
      ensures Verdicts(rig, input, leds)[i].UsedBad? <==> FacesWell(rig, input, leds, i) && FarOff(rig, input, i)
    {
      JudgedBy(rig, input, leds, i);
    }
  }

  // ----- The points for the solver

  /** The two lists for the solver are made of the same LEDs: those that claim a beacon, in their
      order, each with its own place and its own claim. */
  lemma {:induction false} PairsBelong(leds: seq<LedState>, numBeacons: nat) returns (of: seq<nat>)
    ensures |of| == |ImagePoints(leds, numBeacons)| == |ObjectIds(leds, numBeacons)|
    ensures forall k :: 0 <= k < |of| ==>
              && of[k] < |leds| && 0 <= leds[of[k]].id < numBeacons
              && ImagePoints(leds, numBeacons)[k] == leds[of[k]].latest.loc && ObjectIds(leds, numBeacons)[k] == leds[of[k]].id
    ensures forall j, k :: 0 <= j < k < |of| ==> of[j] < of[k]
    ensures forall i :: 0 <= i < |leds| && 0 <= leds[i].id < numBeacons ==> i in of
    decreases |leds|
  {
    if leds == [] {
      of := [];
    } else {
      var n := |leds| - 1;
      of := PairsBelong(leds[..n], numBeacons);
      assert leds == leds[..n] + [leds[n]];
      PoseHistory.FilterSnoc(leds[..n], leds[n], led => InRange(led, numBeacons));
      if InRange(leds[n], numBeacons) {
        of := of + [n];
      }
    }
  }
}
