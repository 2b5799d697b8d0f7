/** A light that comes into view, stays for some frames and leaves, whatever other lights come and go. */
module PassingLight {
  import opened Types
  import opened LedIdentifier
  import opened LedModel
  import opened Matching
  import opened PoseModel
  import opened SensorRun
  import SensorHistory
  import opened Blinking
  import opened Identification

  /** From the first frame on the light is, frame by frame, this blob. */
  datatype Passage = Passage(light: Light, first: nat, at: seq<nat>)

  ghost predicate InView(p: Passage, frames: seq<Frame>) {
    && p.at != [] && p.first + |p.at| <= |frames|
    && forall j :: 0 <= j < |p.at| ==> p.at[j] < |frames[p.first + j].blobs|
  }

  /** The light's blob, this many frames after the first. */
  function BlobAt(p: Passage, frames: seq<Frame>, j: nat): LedMeasurement
    requires InView(p, frames) && j < |p.at|
  {
    frames[p.first + j].blobs[p.at[j]]
  }

  function Course(p: Passage, frames: seq<Frame>): (b: seq<real>)
    requires InView(p, frames)
    ensures |b| == |p.at| && forall j :: 0 <= j < |b| ==> b[j] == BlobAt(p, frames, j).brightness
  {
    seq(|p.at|, j requires 0 <= j < |p.at| => BlobAt(p, frames, j).brightness)
  }

  /** None of the blobs, but possibly that one, may have moved to where this blob is. */
  ghost predicate Unreached(params: Params, before: seq<LedMeasurement>, own: int, blob: LedMeasurement) {
    forall k :: 0 <= k < |before| && k != own ==> !InReach(params, before[k], blob)
  }

  /** The first blob of the light is out of reach of everything in the frame before. */
  ghost predicate Appears(params: Params, p: Passage, frames: seq<Frame>)
    requires InView(p, frames)
  {
    p.first > 0 ==> Unreached(params, frames[p.first - 1].blobs, -1, BlobAt(p, frames, 0))
  }

  /** The next blob of the light is in reach of, and strictly nearest to, the one before, and
      out of reach of everything else in the frame before. */
  ghost predicate Moves(params: Params, p: Passage, frames: seq<Frame>, j: nat)
    requires InView(p, frames) && 0 < j < |p.at|
  {
    var before, now, blobs := BlobAt(p, frames, j - 1), BlobAt(p, frames, j), frames[p.first + j].blobs;
    && InReach(params, before, now)
    && (forall k :: 0 <= k < |blobs| && k != p.at[j] ==> Nearer(before, now, blobs[k]))
    && Unreached(params, frames[p.first + j - 1].blobs, p.at[j - 1], now)
  }

  /** An LED that holds the light's blob is refuted by the estimate of that frame. */
  ghost predicate RefutedAt(params: Params, d: Decoder, est: EstimatorState, p: Passage, frames: seq<Frame>, j: nat)
    requires est.rig.Consistent() && InView(p, frames) && j < |p.at|
  {
    var now := frames[..p.first + j + 1];
    exists i :: 0 <= i < |MatchedLast(params, Some(d), est, now)| && RefutesHolder(params, d, est, now, i, BlobAt(p, frames, j))
  }

  ghost predicate RefutesHolder(params: Params, d: Decoder, est: EstimatorState, frames: seq<Frame>, i: nat, blob: LedMeasurement)
    requires est.rig.Consistent() && frames != [] && i < |MatchedLast(params, Some(d), est, frames)|
  {
    MatchedLast(params, Some(d), est, frames)[i].latest == blob && RefutedLast(params, Some(d), est, frames, i)
  }

  // ----- The LEDs between two frames

  lemma LatestAfter(params: Params, identifier: Option<Decoder>, est: EstimatorState, frames: seq<Frame>)
    requires est.rig.Consistent() && frames != []
    ensures multiset(Latest(Run(params, identifier, est, frames).leds)) == multiset(frames[|frames| - 1].blobs)
  {
    var n := |frames| - 1;
    SensorHistory.FrameConservesBlobs(params, identifier, Run(params, identifier, est, frames[..n]), frames[n].blobs, frames[n].input);
  }

  /** After every frame the LEDs hold just the blobs of that frame. */
  lemma LatestAreBlobs(params: Params, identifier: Option<Decoder>, est: EstimatorState, frames: seq<Frame>, n: nat)
    requires est.rig.Consistent() && n <= |frames|
    ensures multiset(Latest(Run(params, identifier, est, frames[..n]).leds)) == multiset(if n == 0 then [] else frames[n - 1].blobs)
  {
    if n > 0 {
      LatestAfter(params, identifier, est, frames[..n]);
      assert frames[..n][n - 1] == frames[n - 1];
    }
  }

  lemma RestsAgree<T>(a: seq<T>, b: seq<T>, i: nat, k: nat)
    requires multiset(a) == multiset(b) && i < |a| && k < |b| && a[i] == b[k]
    ensures multiset(Remove(a, i)) == multiset(Remove(b, k))
  {
    RemoveTakesOne(a, i);
    RemoveTakesOne(b, k);
    assert multiset(Remove(a, i)) == multiset(a) - multiset{a[i]};
    assert multiset(Remove(b, k)) == multiset(b) - multiset{b[k]};
  }

  lemma InRest<T>(s: seq<T>, i: nat, j: nat)
    requires i < |s| && j < |s| && j != i
    ensures s[j] in multiset(Remove(s, i))
  {
    assert Remove(s, i)[if j < i then j else j - 1] == s[j];
  }

  lemma OutOfRest<T>(s: seq<T>, k: nat, x: T) returns (m: nat)
    requires k < |s| && x in multiset(Remove(s, k))
    ensures m < |s| && m != k && s[m] == x
  {
    var rest := Remove(s, k);
    assert x in rest;
    var n :| 0 <= n < |rest| && rest[n] == x;
    m := if n < k then n else n + 1;
  }

  /** An LED other than the one that holds this blob holds another blob. */
  lemma OtherHolds(leds: seq<LedState>, blobs: seq<LedMeasurement>, i: nat, k: nat, j: nat) returns (m: nat)
    requires multiset(Latest(leds)) == multiset(blobs) && i < |leds| && k < |blobs| && leds[i].latest == blobs[k]
    requires j < |leds| && j != i
    ensures m < |blobs| && m != k && leds[j].latest == blobs[m]
  {
    RestsAgree(Latest(leds), blobs, i, k);
    InRest(Latest(leds), i, j);
    m := OutOfRest(blobs, k, leds[j].latest);
  }

  lemma SomeHolds(leds: seq<LedState>, blobs: seq<LedMeasurement>, j: nat) returns (m: nat)
    requires multiset(Latest(leds)) == multiset(blobs) && j < |leds|
    ensures m < |blobs| && leds[j].latest == blobs[m]
  {
    assert Latest(leds)[j] == leds[j].latest;
    assert leds[j].latest in multiset(Latest(leds));
    assert leds[j].latest in blobs;
    m :| 0 <= m < |blobs| && blobs[m] == leds[j].latest;
  }

  /** A blob that nothing in the frame before could have become gets an LED of its own. */
  lemma BornAmong(params: Params, identifier: Option<Decoder>, leds: seq<LedState>, seen: seq<LedMeasurement>,
                  frame: seq<LedMeasurement>, t: nat, garbage: nat -> uint8) returns (place: nat, g: nat)
    requires multiset(Latest(leds)) == multiset(seen) && t < |frame| && Unreached(params, seen, -1, frame[t])
    ensures var next := UpdateLeds(params, identifier, leds, frame, garbage);
      place < |next| && next[place] == Birth(identifier, frame[t], garbage(g))
  {
    forall j | 0 <= j < |leds| ensures !InReach(params, leds[j].latest, frame[t]) {
      var m := SomeHolds(leds, seen, j);
    }
    place, g := UnreachedIsBorn(params, identifier, leds, frame, t, garbage);
  }

  /** The LED that holds the only blob which could have become this one follows it. */
  lemma FollowedAmong(params: Params, identifier: Option<Decoder>, leds: seq<LedState>, seen: seq<LedMeasurement>,
                      frame: seq<LedMeasurement>, i: nat, k: nat, t: nat, garbage: nat -> uint8) returns (place: nat)
    requires multiset(Latest(leds)) == multiset(seen) && i < |leds| && k < |seen| && leds[i].latest == seen[k]
    requires t < |frame| && InReach(params, seen[k], frame[t]) && Unreached(params, seen, k, frame[t])
    requires forall n :: 0 <= n < |frame| && n != t ==> Nearer(seen[k], frame[t], frame[n])
    ensures var next := UpdateLeds(params, identifier, leds, frame, garbage);
      place < |next| && next[place] == Follow(params, leds[i], frame[t])
  {
    forall j | 0 <= j < i ensures !InReach(params, leds[j].latest, frame[t]) {
      var m := OtherHolds(leds, seen, i, k, j);
    }
    place := NearestFollows(params, identifier, leds, frame, i, t, garbage);
  }

  // ----- Following the light

  /** The LEDs after a frame in which the light is in view. */
  function LedsAfter(params: Params, d: Decoder, est: EstimatorState, p: Passage, frames: seq<Frame>, j: nat): seq<LedState>
    requires est.rig.Consistent() && InView(p, frames) && j < |p.at|
  {
    Run(params, Some(d), est, frames[..p.first + j + 1]).leds
  }

  /** The i-th LED holds the light then. */
  ghost predicate Held(params: Params, d: Decoder, est: EstimatorState, p: Passage, frames: seq<Frame>, j: nat, i: nat)
    requires est.rig.Consistent() && InView(p, frames) && j < |p.at|
  {
    i < |LedsAfter(params, d, est, p, frames, j)| && Holds(d, p, frames, j, LedsAfter(params, d, est, p, frames, j)[i])
  }

  /** The LED holds the light's blob of this frame and has tracked the light since the first one. */
  ghost predicate Holds(d: Decoder, p: Passage, frames: seq<Frame>, j: nat, led: LedState)
    requires InView(p, frames) && j < |p.at|
  {
    led.latest == BlobAt(p, frames, j) && Tracks(d, p.light, Course(p, frames), j + 1, j + 1, led)
  }

  ghost predicate Fits(d: Decoder, pats: seq<string>, p: Passage, frames: seq<Frame>) {
    InView(p, frames) && MadeFrom(d, pats) && Behaves(p.light, pats, d.length, Course(p, frames))
  }

  lemma BornIn(params: Params, d: Decoder, est: EstimatorState, frames: seq<Frame>, n: nat, t: nat) returns (i: nat, garbage: uint8)
    requires est.rig.Consistent() && n < |frames| && t < |frames[n].blobs|
    requires n > 0 ==> Unreached(params, frames[n - 1].blobs, -1, frames[n].blobs[t])
    ensures var leds := MatchedLast(params, Some(d), est, frames[..n + 1]);
      i < |leds| && leds[i] == Birth(Some(d), frames[n].blobs[t], garbage)
  {
    var before, frame := Run(params, Some(d), est, frames[..n]).leds, frames[n];
    LatestAreBlobs(params, Some(d), est, frames, n);
    var g;
    i, g := BornAmong(params, Some(d), before, if n == 0 then [] else frames[n - 1].blobs, frame.blobs, t, frame.input.garbage);
    garbage := frame.input.garbage(g);
    MatchedNext(params, Some(d), est, frames, n);
  }

  /** A light that appears gets an LED of its own. */
  lemma Born(params: Params, d: Decoder, pats: seq<string>, est: EstimatorState, p: Passage, frames: seq<Frame>) returns (i: nat)
    requires est.rig.Consistent() && Fits(d, pats, p, frames) && Appears(params, p, frames)
    ensures var leds := MatchedLast(params, Some(d), est, frames[..p.first + 1]); i < |leds| && Holds(d, p, frames, 0, leds[i])
  {
    var garbage;
    i, garbage := BornIn(params, d, est, frames, p.first, p.at[0]);
    BirthHolds(d, pats, p, frames, garbage);
  }

  lemma BirthHolds(d: Decoder, pats: seq<string>, p: Passage, frames: seq<Frame>, garbage: uint8)
    requires Fits(d, pats, p, frames)
    ensures Holds(d, p, frames, 0, Birth(Some(d), BlobAt(p, frames, 0), garbage))
  {
    var blob := BlobAt(p, frames, 0);
    var blank := LedState(blob, [], NO_IDENTIFIER_OR_INSUFFICIENT_DATA, Some(d), false, garbage, false);
    assert blank.history == Course(p, frames)[0..0];
    ObserveTracks(d, pats, p.light, Course(p, frames), 0, 0, blank, blob, false);
    LatestOfObserve(blank, blob, false);
  }

  lemma FollowedIn(params: Params, d: Decoder, est: EstimatorState, frames: seq<Frame>, n: nat, i: nat, k: nat, t: nat) returns (next: nat)
    requires est.rig.Consistent() && 0 < n < |frames| && k < |frames[n - 1].blobs| && t < |frames[n].blobs|
    requires var leds := Run(params, Some(d), est, frames[..n]).leds; i < |leds| && leds[i].latest == frames[n - 1].blobs[k]
    requires InReach(params, frames[n - 1].blobs[k], frames[n].blobs[t]) && Unreached(params, frames[n - 1].blobs, k, frames[n].blobs[t])
    requires forall m :: 0 <= m < |frames[n].blobs| && m != t ==> Nearer(frames[n - 1].blobs[k], frames[n].blobs[t], frames[n].blobs[m])
    ensures var before, leds := Run(params, Some(d), est, frames[..n]).leds, MatchedLast(params, Some(d), est, frames[..n + 1]);
      next < |leds| && leds[next] == Follow(params, before[i], frames[n].blobs[t])
  {
    var before, frame := Run(params, Some(d), est, frames[..n]).leds, frames[n];
    LatestAreBlobs(params, Some(d), est, frames, n);
    next := FollowedAmong(params, Some(d), before, frames[n - 1].blobs, frame.blobs, i, k, t, frame.input.garbage);
    MatchedNext(params, Some(d), est, frames, n);
  }

  lemma FollowedTo(params: Params, d: Decoder, est: EstimatorState, p: Passage, frames: seq<Frame>, j: nat, i: nat) returns (next: nat)
    requires est.rig.Consistent() && InView(p, frames) && 0 < j < |p.at| && Moves(params, p, frames, j)
    requires var leds := LedsAfter(params, d, est, p, frames, j - 1); i < |leds| && leds[i].latest == BlobAt(p, frames, j - 1)
    ensures var leds := MatchedLast(params, Some(d), est, frames[..p.first + j + 1]);
      next < |leds| && leds[next] == Follow(params, LedsAfter(params, d, est, p, frames, j - 1)[i], BlobAt(p, frames, j))
  {
    next := FollowedIn(params, d, est, frames, p.first + j, i, p.at[j - 1], p.at[j]);
  }

  /** From one frame to the next the same LED goes on tracking the light. */
  lemma Followed(params: Params, d: Decoder, pats: seq<string>, est: EstimatorState, p: Passage, frames: seq<Frame>, j: nat, i: nat) returns (next: nat)
    requires est.rig.Consistent() && Fits(d, pats, p, frames) && 0 < j < |p.at| && Moves(params, p, frames, j)
    requires Held(params, d, est, p, frames, j - 1, i)
    ensures var leds := MatchedLast(params, Some(d), est, frames[..p.first + j + 1]); next < |leds| && Holds(d, p, frames, j, leds[next])
  {
    next := FollowedTo(params, d, est, p, frames, j, i);
    FollowHolds(params, d, pats, p, frames, j, LedsAfter(params, d, est, p, frames, j - 1)[i]);
  }

  lemma FollowHolds(params: Params, d: Decoder, pats: seq<string>, p: Passage, frames: seq<Frame>, j: nat, led: LedState)
    requires Fits(d, pats, p, frames) && 0 < j < |p.at| && Holds(d, p, frames, j - 1, led)
    ensures Holds(d, p, frames, j, Follow(params, led, BlobAt(p, frames, j)))
  {
    var blob := BlobAt(p, frames, j);
    ObserveTracks(d, pats, p.light, Course(p, frames), j, j, led.(used := false), blob, params.blobsKeepIdentity);
    LatestOfObserve(led.(used := false), blob, params.blobsKeepIdentity);
  }

  /** The mark of a verdict leaves an LED on track that it does not refute. Refuting it in the
      first frame leaves it with that frame's sample, all that it had. */
  lemma MarkHolds(d: Decoder, pats: seq<string>, p: Passage, frames: seq<Frame>, j: nat, led: LedState, v: Verdict)
    requires Fits(d, pats, p, frames) && j < |p.at| && Holds(d, p, frames, j, led)
    requires v.Misidentified? ==> Identified(led) && (j == 0 || p.light.Foreign? || p.light.Steady?)
    ensures Holds(d, p, frames, j, Mark(led, v))
  {
    if v.Misidentified? {
      if !p.light.Unknown? {
        IdentifiedIsLong(d, p.light, pats, Course(p, frames), j + 1, j + 1, led);
      }
      assert j == 0;
      RefuteTracks(d, p.light, Course(p, frames), 1, 1, led);
    }
  }

  lemma VerdictOf(params: Params, d: Decoder, est: EstimatorState, frames: seq<Frame>, i: nat) returns (v: Verdict)
    requires est.rig.Consistent() && frames != [] && i < |MatchedLast(params, Some(d), est, frames)|
    ensures v.Misidentified? ==> RefutedLast(params, Some(d), est, frames, i) && Identified(MatchedLast(params, Some(d), est, frames)[i])
    ensures var leds := Run(params, Some(d), est, frames).leds;
      i < |leds| && leds[i] == Mark(MatchedLast(params, Some(d), est, frames)[i], v)
  {
    v := LastVerdicts(params, Some(d), est, frames)[i];
    LedsStep(params, Some(d), est, frames);
    if v.Misidentified? {
      assert RefutedLast(params, Some(d), est, frames, i);
      RefutedWasIdentified(params, Some(d), est, frames, i);
    }
  }

  /** The estimate keeps the LED on track, unless it refutes that of a beacon. */
  lemma Kept(params: Params, d: Decoder, pats: seq<string>, est: EstimatorState, p: Passage, frames: seq<Frame>, j: nat, i: nat)
    requires est.rig.Consistent() && Fits(d, pats, p, frames) && j < |p.at|
    requires var leds := MatchedLast(params, Some(d), est, frames[..p.first + j + 1]); i < |leds| && Holds(d, p, frames, j, leds[i])
    requires j > 0 && (p.light.Beacon? || p.light.Unknown?) ==> !RefutedAt(params, d, est, p, frames, j)
    ensures Held(params, d, est, p, frames, j, i)
  {
    var now := frames[..p.first + j + 1];
    var v := VerdictOf(params, d, est, now, i);
    if v.Misidentified? {
      assert RefutesHolder(params, d, est, now, i, BlobAt(p, frames, j));
    }
    MarkHolds(d, pats, p, frames, j, MatchedLast(params, Some(d), est, now)[i], v);
  }

  lemma AppearsFollowed(params: Params, d: Decoder, pats: seq<string>, est: EstimatorState, p: Passage, frames: seq<Frame>) returns (i: nat)
    requires est.rig.Consistent() && Fits(d, pats, p, frames) && Appears(params, p, frames)
    ensures Held(params, d, est, p, frames, 0, i)
  {
    i := Born(params, d, pats, est, p, frames);
    Kept(params, d, pats, est, p, frames, 0, i);
  }

  lemma FirstFollowed(params: Params, d: Decoder, pats: seq<string>, est: EstimatorState, p: Passage, frames: seq<Frame>) returns (i: nat)
    requires est.rig.Consistent() && Fits(d, pats, p, frames) && Starts(params, d, est, p, frames)
    ensures Held(params, d, est, p, frames, 0, i)
  {
    if Appears(params, p, frames) {
      i := AppearsFollowed(params, d, pats, est, p, frames);
    } else {
      i := Restarted(params, d, pats, est, p, frames);
    }
  }

  lemma NextFollowed(params: Params, d: Decoder, pats: seq<string>, est: EstimatorState, p: Passage, frames: seq<Frame>, j: nat, i: nat) returns (next: nat)
    requires est.rig.Consistent() && Fits(d, pats, p, frames) && 0 < j < |p.at| && MovesUnrefuted(params, d, est, p, frames, j)
    requires Held(params, d, est, p, frames, j - 1, i)
    ensures Held(params, d, est, p, frames, j, next)
  {
    next := Followed(params, d, pats, est, p, frames, j, i);
    Kept(params, d, pats, est, p, frames, j, next);
  }

  /** The light is followed as long as it is in view. */
  lemma {:induction false} StaysFollowed(params: Params, d: Decoder, pats: seq<string>, est: EstimatorState, p: Passage, frames: seq<Frame>, j: nat) returns (i: nat)
    requires est.rig.Consistent() && Fits(d, pats, p, frames) && j < |p.at|
    requires Starts(params, d, est, p, frames) && Stays(params, d, est, p, frames)
    ensures Held(params, d, est, p, frames, j, i)
  {
    if j == 0 {
      i := FirstFollowed(params, d, pats, est, p, frames);
    } else {
      i := StaysFollowed(params, d, pats, est, p, frames, j - 1);
      assert MovesUnrefuted(params, d, est, p, frames, j);
      i := NextFollowed(params, d, pats, est, p, frames, j, i);
    }
  }

  /** In the first frame the light appears, or an LED that holds its blob is refuted and starts over. */
  ghost predicate Starts(params: Params, d: Decoder, est: EstimatorState, p: Passage, frames: seq<Frame>)
    requires est.rig.Consistent() && InView(p, frames)
  {
    Appears(params, p, frames) || (d.length >= 2 && RefutedAt(params, d, est, p, frames, 0))
  }

  ghost predicate MovesUnrefuted(params: Params, d: Decoder, est: EstimatorState, p: Passage, frames: seq<Frame>, j: nat)
    requires est.rig.Consistent() && InView(p, frames) && 0 < j < |p.at|
  {
    Moves(params, p, frames, j) && (p.light.Beacon? || p.light.Unknown? ==> !RefutedAt(params, d, est, p, frames, j))
  }

  /** After that it moves as it should, and the LED of a beacon is not refuted. */
  ghost predicate Stays(params: Params, d: Decoder, est: EstimatorState, p: Passage, frames: seq<Frame>)
    requires est.rig.Consistent() && InView(p, frames)
  {
    forall j :: 0 < j < |p.at| ==> MovesUnrefuted(params, d, est, p, frames, j)
  }

  /** A refuted LED has just the sample of the frame it was refuted in. */
  lemma Restarted(params: Params, d: Decoder, pats: seq<string>, est: EstimatorState, p: Passage, frames: seq<Frame>) returns (i: nat)
    requires est.rig.Consistent() && Fits(d, pats, p, frames) && d.length >= 2 && RefutedAt(params, d, est, p, frames, 0)
    ensures Held(params, d, est, p, frames, 0, i)
  {
    var now := frames[..p.first + 1];
    i :| 0 <= i < |MatchedLast(params, Some(d), est, now)| && RefutesHolder(params, d, est, now, i, BlobAt(p, frames, 0));
    var led := RefutedState(params, d, pats, est, now, i);
    RefuteHolds(d, p, frames, led);
  }

  lemma RefutedState(params: Params, d: Decoder, pats: seq<string>, est: EstimatorState, frames: seq<Frame>, i: nat) returns (led: LedState)
    requires est.rig.Consistent() && MadeFrom(d, pats) && frames != [] && RefutedLast(params, Some(d), est, frames, i)
    ensures led == MatchedLast(params, Some(d), est, frames)[i] && led.history != [] && led.identifier == Some(d)
    ensures var leds := Run(params, Some(d), est, frames).leds; i < |leds| && leds[i] == Refute(led)
  {
    led := MatchedLast(params, Some(d), est, frames)[i];
    var n := |frames| - 1;
    LedsStep(params, Some(d), est, frames);
    SensorHistory.CarriedIdsBlink(params, d, pats, est, frames);
    SensorHistory.MatchedHaveSamples(params, d, Run(params, Some(d), est, frames[..n]), frames[n].blobs, frames[n].input);
    var leds := Run(params, Some(d), est, frames).leds;
    assert leds[i] == Refute(led);
    assert SensorHistory.SoundId(d, pats, leds[i]);
  }

  lemma RefuteHolds(d: Decoder, p: Passage, frames: seq<Frame>, led: LedState)
    requires InView(p, frames) && d.length >= 2
    requires led.latest == BlobAt(p, frames, 0) && led.history != [] && led.identifier == Some(d)
    ensures Holds(d, p, frames, 0, Refute(led))
  {
    assert [led.latest.brightness] == Course(p, frames)[0..1];
  }

  /** Whatever other lights come and go: while a light is in view, an LED holds its blob, and that LED carries the ID
      of the beacon just when the light has been in view, unrefuted, for a full window; no ID if it is no beacon. */
  lemma IdentifiedInPassing(params: Params, d: Decoder, pats: seq<string>, est: EstimatorState, p: Passage, frames: seq<Frame>) returns (i: nat)
    requires est.rig.Consistent() && Fits(d, pats, p, frames)
    requires Starts(params, d, est, p, frames) && Stays(params, d, est, p, frames)
    ensures var leds := LedsAfter(params, d, est, p, frames, |p.at| - 1);
      && i < |leds| && leds[i].latest == BlobAt(p, frames, |p.at| - 1)
      && Carries(d, p.light, |p.at|, leds[i].id)
  {
    i := StaysFollowed(params, d, pats, est, p, frames, |p.at| - 1);
  }
}
