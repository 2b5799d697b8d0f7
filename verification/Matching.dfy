/** Matching the blobs of a frame to the tracked LEDs. */
module Matching {
  import opened Types
  import opened LedModel

  /** The configuration values the tracker uses. */
  datatype Params = Params(
    blobMoveThreshold: real,
    blobsKeepIdentity: bool,
    shouldSkipBrightLeds: bool,
    maxZComponent: real,
    maxResidual: real)

  /** How far the blob last seen so may have moved since the previous frame. */
  function MoveThreshold(params: Params, seen: LedMeasurement): real {
    params.blobMoveThreshold * seen.diameter
  }

  function Pick(params: Params, led: LedState, blobs: seq<LedMeasurement>): (k: nat)
    ensures k <= |blobs|
  {
    Nearest(led.latest.loc, blobs, MoveThreshold(params, led.latest))
  }

  /** A surviving LED takes its new measurement with its used flag cleared. */
  function Follow(params: Params, led: LedState, blob: LedMeasurement): LedState {
    Observe(led.(used := false), blob, params.blobsKeepIdentity)
  }

  /** The erasing loop: the surviving LEDs and the blobs that no LED took. */
  function Match(params: Params, leds: seq<LedState>, blobs: seq<LedMeasurement>): (seq<LedState>, seq<LedMeasurement>) {
    if leds == [] then ([], blobs)
    else
      var k := Pick(params, leds[0], blobs);
      if k == |blobs| then Match(params, leds[1..], blobs)
      else
        var (survivors, rest) := Match(params, leds[1..], Remove(blobs, k));
        ([Follow(params, leds[0], blobs[k])] + survivors, rest)
  }

  /** One new LED for each blob left over; `garbage` gives their uninitialised bytes. */
  function Births(identifier: Option<Decoder>, blobs: seq<LedMeasurement>, garbage: nat -> uint8): (r: seq<LedState>)
    ensures |r| == |blobs|
  {
    seq(|blobs|, i requires 0 <= i < |blobs| => Birth(identifier, blobs[i], garbage(i)))
  }

  /** The LED list after the whole matching block. */
  function UpdateLeds(params: Params, identifier: Option<Decoder>, leds: seq<LedState>,
                      blobs: seq<LedMeasurement>, garbage: nat -> uint8): seq<LedState> {
    var (survivors, rest) := Match(params, leds, blobs);
    survivors + Births(identifier, rest, garbage)
  }

  // ----- Conservation

  function Latest(leds: seq<LedState>): (r: seq<LedMeasurement>)
    ensures |r| == |leds|
  {
    seq(|leds|, i requires 0 <= i < |leds| => leds[i].latest)
  }

  lemma {:induction false} MatchConserves(params: Params, leds: seq<LedState>, blobs: seq<LedMeasurement>)
    ensures var (survivors, rest) := Match(params, leds, blobs);
      multiset(Latest(survivors)) + multiset(rest) == multiset(blobs)
  {
    if leds != [] {
      var k := Pick(params, leds[0], blobs);
      if k == |blobs| {
        MatchConserves(params, leds[1..], blobs);
      } else {
        var (survivors, rest) := Match(params, leds[1..], Remove(blobs, k));
        MatchConserves(params, leds[1..], Remove(blobs, k));
        RemoveTakesOne(blobs, k);
        LatestOfCons(params, leds[0], blobs[k], survivors);
      }
    }
  }

  lemma LatestOfCons(params: Params, led: LedState, blob: LedMeasurement, survivors: seq<LedState>)
    ensures Latest([Follow(params, led, blob)] + survivors) == [blob] + Latest(survivors)
  {
    LatestOfObserve(led.(used := false), blob, params.blobsKeepIdentity);
  }

  lemma RemoveTakesOne<T>(s: seq<T>, k: nat)
    requires k < |s|
    ensures multiset(s) == multiset{s[k]} + multiset(Remove(s, k))
  {
    assert s == s[..k] + [s[k]] + s[k + 1..];
  }

  /** Every blob of the frame is the latest measurement of exactly one LED afterwards. */
  lemma BlobsConserved(params: Params, identifier: Option<Decoder>, leds: seq<LedState>,
                       blobs: seq<LedMeasurement>, garbage: nat -> uint8)
    ensures multiset(Latest(UpdateLeds(params, identifier, leds, blobs, garbage))) == multiset(blobs)
  {
    var (survivors, rest) := Match(params, leds, blobs);
    MatchConserves(params, leds, blobs);
    LatestOfBirths(identifier, survivors, rest, garbage);
  }

  lemma LatestOfBirths(identifier: Option<Decoder>, survivors: seq<LedState>, rest: seq<LedMeasurement>, garbage: nat -> uint8)
    ensures Latest(survivors + Births(identifier, rest, garbage)) == Latest(survivors) + rest
  {
    var births := Births(identifier, rest, garbage);
    forall i | 0 <= i < |rest| ensures births[i].latest == rest[i] {
      LatestOfObserve(LedState(rest[i], [], -1, identifier, false, garbage(i), false), rest[i], false);
    }
  }

  lemma LatestOfObserve(led: LedState, meas: LedMeasurement, keep: bool)
    ensures Observe(led, meas, keep).latest == meas
  {
  }

  // ----- What the loop computes, stated on the indices of the frame's own blob list

  /** Which blob of the frame, by index, each LED takes; None for a deleted LED. */
  type Claims = seq<Option<nat>>

  predicate InReach(params: Params, seen: LedMeasurement, blob: LedMeasurement) {
    DistSquared(seen.loc, blob.loc) <= MoveThreshold(params, seen) * MoveThreshold(params, seen)
  }

  predicate Nearer(seen: LedMeasurement, a: LedMeasurement, b: LedMeasurement) {
    DistSquared(seen.loc, a.loc) < DistSquared(seen.loc, b.loc)
  }

  /** The blobs that these choices use up. */
  function TakenBy(claims: Claims): set<nat> {
    set i | 0 <= i < |claims| && claims[i].Some? :: claims[i].value
  }

  function Take(taken: set<nat>, choice: Option<nat>): set<nat> {
    if choice.Some? then taken + {choice.value} else taken
  }

  predicate Free(taken: set<nat>, frame: seq<LedMeasurement>, j: nat) {
    j < |frame| && j !in taken
  }

  /** The LED takes the nearest blob that no earlier LED took, the first one on a tie, if that
      blob is in reach; it takes none if no such blob is in reach. */
  ghost predicate Chooses(params: Params, led: LedState, frame: seq<LedMeasurement>, taken: set<nat>, choice: Option<nat>) {
    match choice
    case None => forall j: nat :: Free(taken, frame, j) ==> !InReach(params, led.latest, frame[j])
    case Some(k) =>
      && Free(taken, frame, k) && InReach(params, led.latest, frame[k])
      && (forall j: nat :: Free(taken, frame, j) && j < k ==> Nearer(led.latest, frame[k], frame[j]))
      && (forall j: nat :: Free(taken, frame, j) && j > k ==> !Nearer(led.latest, frame[j], frame[k]))
  }

  ghost predicate Greedy(params: Params, leds: seq<LedState>, frame: seq<LedMeasurement>, claims: Claims) {
    |claims| == |leds| && forall i :: 0 <= i < |leds| ==> Chooses(params, leds[i], frame, TakenBy(claims[..i]), claims[i])
  }

  /** The same, one LED at a time, for the LEDs that come after those that took `taken`. */
  ghost predicate GreedyFrom(params: Params, leds: seq<LedState>, frame: seq<LedMeasurement>, taken: set<nat>, claims: Claims) {
    && |claims| == |leds|
    && (leds != [] ==>
          && Chooses(params, leds[0], frame, taken, claims[0])
          && GreedyFrom(params, leds[1..], frame, Take(taken, claims[0]), claims[1..]))
  }

  lemma TakenByCons(taken: set<nat>, claims: Claims)
    requires claims != []
    ensures taken + TakenBy(claims) == Take(taken, claims[0]) + TakenBy(claims[1..])
  {
    assert claims == [claims[0]] + claims[1..];
    forall c | c in TakenBy(claims) ensures c in Take({}, claims[0]) + TakenBy(claims[1..]) {
      var i :| 0 <= i < |claims| && claims[i] == Some(c);
      assert i > 0 ==> claims[1..][i - 1] == Some(c);
    }
    forall c | c in TakenBy(claims[1..]) ensures c in TakenBy(claims) {
      var i :| 0 <= i < |claims[1..]| && claims[1..][i] == Some(c);
      assert claims[i + 1] == Some(c);
    }
  }

  lemma {:induction false} GreedyStepwise(params: Params, leds: seq<LedState>, frame: seq<LedMeasurement>, taken: set<nat>, claims: Claims, i: nat)
    requires GreedyFrom(params, leds, frame, taken, claims) && i < |leds|
    ensures Chooses(params, leds[i], frame, taken + TakenBy(claims[..i]), claims[i])
  {
    if i == 0 {
      assert taken + TakenBy(claims[..0]) == taken;
    } else {
      GreedyStepwise(params, leds[1..], frame, Take(taken, claims[0]), claims[1..], i - 1);
      TakenByCons(taken, claims[..i]);
      assert claims[..i][1..] == claims[1..][..i - 1];
    }
  }

  /** `idx` lists, in increasing order, exactly the blobs that nobody took. */
  ghost predicate Unclaimed(frame: seq<LedMeasurement>, taken: set<nat>, idx: seq<nat>) {
    && (forall i, j :: 0 <= i < j < |idx| ==> idx[i] < idx[j])
    && (forall i :: 0 <= i < |idx| ==> Free(taken, frame, idx[i]))
    && (forall j: nat :: Free(taken, frame, j) ==> j in idx)
  }

  function At(frame: seq<LedMeasurement>, idx: seq<nat>): (r: seq<LedMeasurement>)
    requires forall i :: 0 <= i < |idx| ==> idx[i] < |frame|
    ensures |r| == |idx|
  {
    seq(|idx|, i requires 0 <= i < |idx| => frame[idx[i]])
  }

  /** The LEDs that took a blob, in their old order, each with that blob. */
  function Survivors(params: Params, leds: seq<LedState>, frame: seq<LedMeasurement>, claims: Claims): seq<LedState>
    requires |claims| == |leds| && InFrame(frame, claims)
  {
    if leds == [] then []
    else
      (if claims[0].Some? then [Follow(params, leds[0], frame[claims[0].value])] else [])
      + Survivors(params, leds[1..], frame, claims[1..])
  }

  predicate InFrame(frame: seq<LedMeasurement>, claims: Claims) {
    forall i :: 0 <= i < |claims| && claims[i].Some? ==> claims[i].value < |frame|
  }

  lemma PickIsNearest(params: Params, led: LedState, blobs: seq<LedMeasurement>)
    ensures var k := Pick(params, led, blobs);
      if k == |blobs| then forall i :: 0 <= i < |blobs| ==> !InReach(params, led.latest, blobs[i])
      else
        && InReach(params, led.latest, blobs[k])
        && (forall i :: 0 <= i < k ==> Nearer(led.latest, blobs[k], blobs[i]))
        && (forall i :: k < i < |blobs| ==> !Nearer(led.latest, blobs[i], blobs[k]))
  {
  }

  lemma PositionOf(idx: seq<nat>, j: nat) returns (i: nat)
    requires j in idx
    ensures i < |idx| && idx[i] == j
  {
    i :| 0 <= i < |idx| && idx[i] == j;
  }

  /** Taking the nearest of the remaining blobs is choosing greedily in the frame. */
  lemma PickChooses(params: Params, led: LedState, frame: seq<LedMeasurement>, taken: set<nat>, idx: seq<nat>) returns (choice: Option<nat>)
    requires Unclaimed(frame, taken, idx)
    ensures Chooses(params, led, frame, taken, choice)
    ensures var k := Pick(params, led, At(frame, idx));
      choice == if k == |idx| then None else Some(idx[k])
  {
    var blobs := At(frame, idx);
    var k := Pick(params, led, blobs);
    PickIsNearest(params, led, blobs);
    if k == |idx| {
      choice := None;
      forall j: nat | Free(taken, frame, j) ensures !InReach(params, led.latest, frame[j]) {
        var i := PositionOf(idx, j);
        assert blobs[i] == frame[j];
      }
    } else {
      choice := Some(idx[k]);
      forall j: nat | Free(taken, frame, j) && j < idx[k] ensures Nearer(led.latest, frame[idx[k]], frame[j]) {
        var i := PositionOf(idx, j);
        assert i < k && blobs[i] == frame[j];
      }
      forall j: nat | Free(taken, frame, j) && j > idx[k] ensures !Nearer(led.latest, frame[j], frame[idx[k]]) {
        var i := PositionOf(idx, j);
        assert i > k && blobs[i] == frame[j];
      }
    }
  }

  lemma RemoveUnclaimed(frame: seq<LedMeasurement>, taken: set<nat>, idx: seq<nat>, k: nat)
    requires Unclaimed(frame, taken, idx) && k < |idx|
    ensures Unclaimed(frame, taken + {idx[k]}, Remove(idx, k))
  {
    var rest := Remove(idx, k);
    RemoveAt(idx, k, rest);
    forall i | 0 <= i < |rest| ensures Free(taken + {idx[k]}, frame, rest[i]) {
      assert Free(taken, frame, if i < k then idx[i] else idx[i + 1]);
    }
    forall j: nat | Free(taken + {idx[k]}, frame, j) ensures j in rest {
      RemoveKeeps(idx, k, rest, j);
    }
  }

  lemma RemoveKeeps(idx: seq<nat>, k: nat, rest: seq<nat>, j: nat)
    requires k < |idx| && rest == Remove(idx, k) && j in idx && j != idx[k]
    ensures j in rest
  {
    RemoveAt(idx, k, rest);
    var i := PositionOf(idx, j);
    assert rest[if i < k then i else i - 1] == j;
  }

  lemma RemoveAt(idx: seq<nat>, k: nat, rest: seq<nat>)
    requires k < |idx| && rest == Remove(idx, k)
    ensures forall i :: 0 <= i < |rest| ==> rest[i] == if i < k then idx[i] else idx[i + 1]
  {
  }

  lemma AtOfRemove(frame: seq<LedMeasurement>, idx: seq<nat>, k: nat)
    requires forall i :: 0 <= i < |idx| ==> idx[i] < |frame|
    requires k < |idx|
    ensures forall i :: 0 <= i < |Remove(idx, k)| ==> Remove(idx, k)[i] < |frame|
    ensures At(frame, Remove(idx, k)) == Remove(At(frame, idx), k)
  {
    var rest := Remove(idx, k);
    assert forall i :: 0 <= i < |rest| ==> rest[i] == if i < k then idx[i] else idx[i + 1];
  }

  /** The choices the loop makes when the blobs still there are those listed by `idx`... */
  function ClaimsOf(params: Params, leds: seq<LedState>, frame: seq<LedMeasurement>, idx: seq<nat>): (claims: Claims)
    requires forall i :: 0 <= i < |idx| ==> idx[i] < |frame|
    ensures |claims| == |leds|
    ensures forall i :: 0 <= i < |claims| && claims[i].Some? ==> claims[i].value < |frame|
  {
    if leds == [] then []
    else
      var k := Pick(params, leds[0], At(frame, idx));
      if k == |idx| then [None] + ClaimsOf(params, leds[1..], frame, idx)
      else [Some(idx[k])] + ClaimsOf(params, leds[1..], frame, Remove(idx, k))
  }

  /** ...and the blobs it leaves over. */
  function LeftOf(params: Params, leds: seq<LedState>, frame: seq<LedMeasurement>, idx: seq<nat>): (left: seq<nat>)
    requires forall i :: 0 <= i < |idx| ==> idx[i] < |frame|
    ensures forall i :: 0 <= i < |left| ==> left[i] < |frame|
  {
    if leds == [] then idx
    else
      var k := Pick(params, leds[0], At(frame, idx));
      LeftOf(params, leds[1..], frame, if k == |idx| then idx else Remove(idx, k))
  }

  lemma {:induction false} MatchByIndex(params: Params, leds: seq<LedState>, frame: seq<LedMeasurement>, idx: seq<nat>)
    requires forall i :: 0 <= i < |idx| ==> idx[i] < |frame|
    ensures Match(params, leds, At(frame, idx))
            == (Survivors(params, leds, frame, ClaimsOf(params, leds, frame, idx)), At(frame, LeftOf(params, leds, frame, idx)))
  {
    if leds != [] {
      var k := Pick(params, leds[0], At(frame, idx));
      var claims := ClaimsOf(params, leds, frame, idx);
      if k == |idx| {
        MatchByIndex(params, leds[1..], frame, idx);
        assert claims[1..] == ClaimsOf(params, leds[1..], frame, idx);
        assert [] + Survivors(params, leds[1..], frame, claims[1..]) == Survivors(params, leds[1..], frame, claims[1..]);
      } else {
        AtOfRemove(frame, idx, k);
        MatchByIndex(params, leds[1..], frame, Remove(idx, k));
        assert claims[1..] == ClaimsOf(params, leds[1..], frame, Remove(idx, k));
      }
    }
  }

  /** From any point of the loop on, the LEDs still to come choose greedily. */
  lemma {:induction false} ClaimsAreGreedy(params: Params, leds: seq<LedState>, frame: seq<LedMeasurement>, taken: set<nat>, idx: seq<nat>)
    requires Unclaimed(frame, taken, idx)
    ensures var claims := ClaimsOf(params, leds, frame, idx);
      && GreedyFrom(params, leds, frame, taken, claims)
      && Unclaimed(frame, taken + TakenBy(claims), LeftOf(params, leds, frame, idx))
  {
    var claims := ClaimsOf(params, leds, frame, idx);
    if leds == [] {
      assert taken + TakenBy([]) == taken;
    } else {
      var choice := PickChooses(params, leds[0], frame, taken, idx);
      var k := Pick(params, leds[0], At(frame, idx));
      var rest := if k == |idx| then idx else Remove(idx, k);
      if k < |idx| {
        RemoveUnclaimed(frame, taken, idx, k);
      }
      ClaimsAreGreedy(params, leds[1..], frame, Take(taken, choice), rest);
      assert claims[1..] == ClaimsOf(params, leds[1..], frame, rest);
      TakenByCons(taken, claims);
    }
  }

  function Indices(n: nat): (idx: seq<nat>)
    ensures |idx| == n && forall i :: 0 <= i < n ==> idx[i] == i
  {
    seq(n, i => i)
  }

  /** The loop matches greedily: survivors keep their order and hold the blobs they chose,
      and the blobs left over are the unclaimed ones in the order of the frame. */
  lemma MatchIsGreedy(params: Params, leds: seq<LedState>, frame: seq<LedMeasurement>) returns (claims: Claims, left: seq<nat>)
    ensures Greedy(params, leds, frame, claims) && InFrame(frame, claims)
    ensures Unclaimed(frame, TakenBy(claims), left)
    ensures Match(params, leds, frame) == (Survivors(params, leds, frame, claims), At(frame, left))
  {
    var idx := Indices(|frame|);
    AllUnclaimed(frame);
    claims, left := ClaimsOf(params, leds, frame, idx), LeftOf(params, leds, frame, idx);
    MatchByIndex(params, leds, frame, idx);
    ClaimsAreGreedy(params, leds, frame, {}, idx);
    forall i | 0 <= i < |leds| ensures Chooses(params, leds[i], frame, TakenBy(claims[..i]), claims[i]) {
      GreedyStepwise(params, leds, frame, {}, claims, i);
      assert {} + TakenBy(claims[..i]) == TakenBy(claims[..i]);
    }
    assert {} + TakenBy(claims) == TakenBy(claims);
  }

  lemma AllUnclaimed(frame: seq<LedMeasurement>)
    ensures Unclaimed(frame, {}, Indices(|frame|)) && At(frame, Indices(|frame|)) == frame
  {
    var idx := Indices(|frame|);
    forall j | 0 <= j < |frame| ensures j in idx {
      assert idx[j] == j;
    }
  }

  /** There is only one greedy choice of blobs. */
  lemma {:induction false} GreedyIsUnique(params: Params, leds: seq<LedState>, frame: seq<LedMeasurement>, a: Claims, b: Claims, n: nat)
    requires Greedy(params, leds, frame, a) && Greedy(params, leds, frame, b) && n <= |leds|
    ensures a[..n] == b[..n]
  {
    if n > 0 {
      GreedyIsUnique(params, leds, frame, a, b, n - 1);
      assert Chooses(params, leds[n - 1], frame, TakenBy(a[..n - 1]), a[n - 1]);
      assert Chooses(params, leds[n - 1], frame, TakenBy(b[..n - 1]), b[n - 1]);
      assert a[..n] == a[..n - 1] + [a[n - 1]];
      assert b[..n] == b[..n - 1] + [b[n - 1]];
    }
  }

  // ----- Recovering the true assignment

  /** `truth` gives each LED, last seen so, a blob of its own that is in its reach and strictly
      nearer to it than every other blob. */
  ghost predicate TrueAssignment(params: Params, seen: seq<LedMeasurement>, frame: seq<LedMeasurement>, truth: seq<nat>) {
    && |truth| == |seen|
    && (forall i :: 0 <= i < |seen| ==> truth[i] < |frame| && InReach(params, seen[i], frame[truth[i]]))
    && (forall i, j :: 0 <= i < j < |seen| ==> truth[i] != truth[j])
    && (forall i, j :: 0 <= i < |seen| && 0 <= j < |frame| && j != truth[i] ==> Nearer(seen[i], frame[truth[i]], frame[j]))
  }

  function AsClaims(truth: seq<nat>): (claims: Claims)
    ensures |claims| == |truth| && forall i :: 0 <= i < |truth| ==> claims[i] == Some(truth[i])
  {
    seq(|truth|, i requires 0 <= i < |truth| => Some(truth[i]))
  }

  function FollowAll(params: Params, leds: seq<LedState>, frame: seq<LedMeasurement>, truth: seq<nat>): (r: seq<LedState>)
    requires |truth| == |leds| && forall i :: 0 <= i < |truth| ==> truth[i] < |frame|
    ensures |r| == |leds|
  {
    seq(|leds|, i requires 0 <= i < |leds| => Follow(params, leds[i], frame[truth[i]]))
  }

  lemma {:induction false} SurvivorsOfAll(params: Params, leds: seq<LedState>, frame: seq<LedMeasurement>, truth: seq<nat>)
    requires |truth| == |leds| && forall i :: 0 <= i < |truth| ==> truth[i] < |frame|
    ensures Survivors(params, leds, frame, AsClaims(truth)) == FollowAll(params, leds, frame, truth)
  {
    if leds != [] {
      SurvivorsOfAll(params, leds[1..], frame, truth[1..]);
      assert AsClaims(truth)[1..] == AsClaims(truth[1..]);
    }
  }

  /** When there is a true assignment the loop finds it: no LED is deleted and every
      LED follows its own blob. */
  lemma MatchRecoversTruth(params: Params, leds: seq<LedState>, frame: seq<LedMeasurement>, truth: seq<nat>)
    requires TrueAssignment(params, Latest(leds), frame, truth)
    ensures Match(params, leds, frame).0 == FollowAll(params, leds, frame, truth)
    ensures |leds| == |frame| ==> Match(params, leds, frame).1 == []
  {
    var claims, left := MatchIsGreedy(params, leds, frame);
    forall i | 0 <= i < |leds|
      ensures Chooses(params, leds[i], frame, TakenBy(AsClaims(truth)[..i]), AsClaims(truth)[i])
    {
      assert Free(TakenBy(AsClaims(truth)[..i]), frame, truth[i]);
    }
    GreedyIsUnique(params, leds, frame, claims, AsClaims(truth), |leds|);
    assert claims == claims[..|leds|] && AsClaims(truth) == AsClaims(truth)[..|leds|];
    SurvivorsOfAll(params, leds, frame, truth);
    MatchConserves(params, leds, frame);
    if |leds| == |frame| {
      var (survivors, rest) := Match(params, leds, frame);
      assert |multiset(Latest(survivors)) + multiset(rest)| == |survivors| + |rest|;
    }
  }

  /** Then the whole list just follows its blobs, when every blob belongs to an LED. */
  lemma UpdateFollows(params: Params, identifier: Option<Decoder>, leds: seq<LedState>, frame: seq<LedMeasurement>,
                      truth: seq<nat>, garbage: nat -> uint8)
    requires TrueAssignment(params, Latest(leds), frame, truth) && |leds| == |frame|
    ensures UpdateLeds(params, identifier, leds, frame, garbage) == FollowAll(params, leds, frame, truth)
  {
    MatchRecoversTruth(params, leds, frame, truth);
    assert Births(identifier, [], garbage) == [];
  }

  // ----- One LED or one blob among others

  /** Where a survivor ends up in the list. */
  lemma {:induction false} SurvivorHolds(params: Params, leds: seq<LedState>, frame: seq<LedMeasurement>, claims: Claims, i: nat) returns (place: nat)
    requires |claims| == |leds| && InFrame(frame, claims) && i < |leds| && claims[i].Some?
    ensures var survivors := Survivors(params, leds, frame, claims);
      place < |survivors| && survivors[place] == Follow(params, leds[i], frame[claims[i].value])
  {
    if i == 0 {
      place := 0;
    } else {
      place := SurvivorHolds(params, leds[1..], frame, claims[1..], i - 1);
      place := place + if claims[0].Some? then 1 else 0;
    }
  }

  /** An LED follows the blob that is strictly nearest to it and in its reach, if that blob
      is in the reach of no earlier LED, whatever becomes of the others. */
  lemma NearestFollows(params: Params, identifier: Option<Decoder>, leds: seq<LedState>, frame: seq<LedMeasurement>,
                       i: nat, t: nat, garbage: nat -> uint8) returns (place: nat)
    requires i < |leds| && t < |frame| && InReach(params, leds[i].latest, frame[t])
    requires forall k :: 0 <= k < |frame| && k != t ==> Nearer(leds[i].latest, frame[t], frame[k])
    requires forall j :: 0 <= j < i ==> !InReach(params, leds[j].latest, frame[t])
    ensures var next := UpdateLeds(params, identifier, leds, frame, garbage);
      place < |next| && next[place] == Follow(params, leds[i], frame[t])
  {
    var claims, left := MatchIsGreedy(params, leds, frame);
    NotTaken(params, leds, frame, claims, i, t);
    assert Chooses(params, leds[i], frame, TakenBy(claims[..i]), claims[i]);
    assert claims[i] == Some(t);
    place := SurvivorHolds(params, leds, frame, claims, i);
  }

  /** A blob out of the reach of the first n LEDs is taken by none of them. */
  lemma NotTaken(params: Params, leds: seq<LedState>, frame: seq<LedMeasurement>, claims: Claims, n: nat, t: nat)
    requires Greedy(params, leds, frame, claims) && n <= |leds| && t < |frame|
    requires forall j :: 0 <= j < n ==> !InReach(params, leds[j].latest, frame[t])
    ensures Free(TakenBy(claims[..n]), frame, t)
  {
    forall j | 0 <= j < n ensures claims[j] != Some(t) {
      assert Chooses(params, leds[j], frame, TakenBy(claims[..j]), claims[j]);
    }
  }

  /** A blob out of the reach of every LED gets an LED of its own. */
  lemma UnreachedIsBorn(params: Params, identifier: Option<Decoder>, leds: seq<LedState>, frame: seq<LedMeasurement>,
                        t: nat, garbage: nat -> uint8) returns (place: nat, n: nat)
    requires t < |frame| && forall j :: 0 <= j < |leds| ==> !InReach(params, leds[j].latest, frame[t])
    ensures var next := UpdateLeds(params, identifier, leds, frame, garbage);
      place < |next| && next[place] == Birth(identifier, frame[t], garbage(n))
  {
    var claims, left := MatchIsGreedy(params, leds, frame);
    NotTaken(params, leds, frame, claims, |leds|, t);
    assert claims[..|leds|] == claims;
    n := PositionOf(left, t);
    place := BirthPlace(identifier, Survivors(params, leds, frame, claims), frame, left, n, garbage);
  }

  lemma BirthPlace(identifier: Option<Decoder>, survivors: seq<LedState>, frame: seq<LedMeasurement>, left: seq<nat>,
                   n: nat, garbage: nat -> uint8) returns (place: nat)
    requires n < |left| && forall i :: 0 <= i < |left| ==> left[i] < |frame|
    ensures var next := survivors + Births(identifier, At(frame, left), garbage);
      place < |next| && next[place] == Birth(identifier, frame[left[n]], garbage(n))
  {
    place := |survivors| + n;
  }

  function Reorder<T>(s: seq<T>, order: seq<nat>): (r: seq<T>)
    requires forall i :: 0 <= i < |order| ==> order[i] < |s|
    ensures |r| == |order| && forall i :: 0 <= i < |order| ==> r[i] == s[order[i]]
  {
    seq(|order|, i requires 0 <= i < |order| => s[order[i]])
  }

  /** The pairs found do not depend on the order of the LED list. */
  lemma OrderDoesNotMatter(params: Params, leds: seq<LedState>, frame: seq<LedMeasurement>, truth: seq<nat>, order: seq<nat>)
    requires TrueAssignment(params, Latest(leds), frame, truth)
    requires |order| == |leds| && forall i :: 0 <= i < |order| ==> order[i] < |leds|
    requires forall i, j :: 0 <= i < j < |order| ==> order[i] != order[j]
    ensures |Match(params, leds, frame).0| == |leds|
    ensures Match(params, Reorder(leds, order), frame).0 == Reorder(Match(params, leds, frame).0, order)
  {
    MatchRecoversTruth(params, leds, frame, truth);
    TruthOfReordered(params, Latest(leds), frame, truth, order);
    assert Latest(Reorder(leds, order)) == Reorder(Latest(leds), order);
    MatchRecoversTruth(params, Reorder(leds, order), frame, Reorder(truth, order));
    FollowReordered(params, leds, frame, truth, order);
  }

  lemma TruthOfReordered(params: Params, seen: seq<LedMeasurement>, frame: seq<LedMeasurement>, truth: seq<nat>, order: seq<nat>)
    requires TrueAssignment(params, seen, frame, truth)
    requires |order| == |seen| && forall i :: 0 <= i < |order| ==> order[i] < |seen|
    requires forall i, j :: 0 <= i < j < |order| ==> order[i] != order[j]
    ensures TrueAssignment(params, Reorder(seen, order), frame, Reorder(truth, order))
  {
    var truth' := Reorder(truth, order);
    forall i, j | 0 <= i < j < |order| ensures truth'[i] != truth'[j] {
      DistinctBlobs(params, seen, frame, truth, order[i], order[j]);
    }
  }

  lemma DistinctBlobs(params: Params, seen: seq<LedMeasurement>, frame: seq<LedMeasurement>, truth: seq<nat>, i: nat, j: nat)
    requires TrueAssignment(params, seen, frame, truth) && i < |seen| && j < |seen| && i != j
    ensures truth[i] != truth[j]
  {
  }

  lemma FollowReordered(params: Params, leds: seq<LedState>, frame: seq<LedMeasurement>, truth: seq<nat>, order: seq<nat>)
    requires |truth| == |leds| && forall i :: 0 <= i < |truth| ==> truth[i] < |frame|
    requires forall i :: 0 <= i < |order| ==> order[i] < |leds|
    ensures FollowAll(params, Reorder(leds, order), frame, Reorder(truth, order)) == Reorder(FollowAll(params, leds, frame, truth), order)
  {
  }
}
