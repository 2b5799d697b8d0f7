/** Which LED carries which ID, over every run of one sensor and of several. */
module Identification {
  import opened Types
  import opened LedIdentifier
  import opened LedModel
  import LedHistory
  import opened Matching
  import opened PoseModel
  import opened SensorRun
  import opened Blinking

  // ----- One LED

  /** The first of the samples that an LED of this age retains. */
  function Start(n: nat, age: nat, length: nat): (start: nat)
    requires age <= n
    ensures start <= n
  {
    if age < length then n - age else n - length
  }

  /** The LED retains the latest of `age` samples, of the n that its light has shown,
      and has the light's reading just when they fill the window. */
  ghost predicate Tracks(d: Decoder, light: Light, b: seq<real>, n: nat, age: nat, led: LedState)
    requires n <= |b|
  {
    && age <= n
    && led.identifier == Some(d)
    && led.history == b[Start(n, age, d.length)..n]
    && (!light.Unknown? ==> led.id == if age >= d.length then light.Reads() else NO_IDENTIFIER_OR_INSUFFICIENT_DATA)
  }

  /** Which samples a window of this length retains after one more. */
  lemma RetainedSlides(b: seq<real>, n: nat, age: nat, length: nat, history: seq<real>)
    requires age <= n < |b| && length >= 1 && history == b[Start(n, age, length)..n]
    ensures |history| == if age < length then age else length
    ensures LastN(history + [b[n]], length) == b[Start(n + 1, age + 1, length)..n + 1]
  {
    assert history + [b[n]] == b[Start(n, age, length)..n + 1];
  }

  /** Keeping an earlier ID makes no difference when it was right. */
  lemma KeptOrDecoded(d: Decoder, id: int, currentId: int, window: seq<real>, lastBright: bool, blobsKeepId: bool)
    requires ReadsAs(d, window, id) && (currentId >= 0 ==> currentId == id)
    ensures ReadWindow(d, currentId, window, lastBright, blobsKeepId).id == id
  {
  }

  /** The ID after a further sample: none while the window is short, and then what the window is read as. */
  lemma ObservedId(d: Decoder, id: int, led: LedState, meas: LedMeasurement, blobsKeepId: bool)
    requires led.identifier == Some(d) && (Identified(led) ==> led.id == id)
    requires |led.history| + 1 >= d.length ==> ReadsAs(d, LastN(led.history + [meas.brightness], d.length), id)
    ensures Observe(led, meas, blobsKeepId).id
            == if |led.history| + 1 >= d.length then id else NO_IDENTIFIER_OR_INSUFFICIENT_DATA
  {
    if |led.history| + 1 >= d.length {
      KeptOrDecoded(d, id, led.id, LastN(led.history + [meas.brightness], d.length), led.lastBright, blobsKeepId);
    }
  }

  lemma TracksHistory(d: Decoder, light: Light, b: seq<real>, n: nat, age: nat, led: LedState, meas: LedMeasurement, blobsKeepId: bool)
    requires n < |b| && meas.brightness == b[n] && Tracks(d, light, b, n, age, led)
    ensures var next := Observe(led, meas, blobsKeepId);
      next.identifier == Some(d) && next.history == b[Start(n + 1, age + 1, d.length)..n + 1]
  {
    RetainedSlides(b, n, age, d.length, led.history);
    LedHistory.ObservedHistory(led, meas, blobsKeepId);
  }

  lemma TracksId(d: Decoder, light: Light, b: seq<real>, n: nat, age: nat, led: LedState, meas: LedMeasurement, blobsKeepId: bool)
    requires n < |b| && meas.brightness == b[n] && Tracks(d, light, b, n, age, led) && !light.Unknown?
    requires age + 1 >= d.length ==> ReadsAs(d, b[n + 1 - d.length..n + 1], light.Reads())
    ensures Observe(led, meas, blobsKeepId).id == if age + 1 >= d.length then light.Reads() else NO_IDENTIFIER_OR_INSUFFICIENT_DATA
  {
    RetainedSlides(b, n, age, d.length, led.history);
    ObservedId(d, light.Reads(), led, meas, blobsKeepId);
  }

  lemma TracksNext(d: Decoder, light: Light, b: seq<real>, n: nat, age: nat, led: LedState, meas: LedMeasurement, blobsKeepId: bool)
    requires n < |b| && meas.brightness == b[n] && Tracks(d, light, b, n, age, led)
    requires !light.Unknown? && age + 1 >= d.length ==> ReadsAs(d, b[n + 1 - d.length..n + 1], light.Reads())
    ensures Tracks(d, light, b, n + 1, age + 1, Observe(led, meas, blobsKeepId))
  {
    TracksHistory(d, light, b, n, age, led, meas, blobsKeepId);
    if !light.Unknown? {
      TracksId(d, light, b, n, age, led, meas, blobsKeepId);
    }
  }

  /** A further sample of its own light keeps an LED on track, whatever the keep-ID setting. */
  lemma ObserveTracks(d: Decoder, pats: seq<string>, light: Light, b: seq<real>, n: nat, age: nat,
                      led: LedState, meas: LedMeasurement, blobsKeepId: bool)
    requires MadeFrom(d, pats) && Behaves(light, pats, d.length, b)
    requires n < |b| && meas.brightness == b[n]
    requires Tracks(d, light, b, n, age, led)
    ensures Tracks(d, light, b, n + 1, age + 1, Observe(led, meas, blobsKeepId))
  {
    if !light.Unknown? && age + 1 >= d.length {
      LightReads(d, pats, light, b, n + 1 - d.length, n + 1);
    }
    TracksNext(d, light, b, n, age, led, meas, blobsKeepId);
  }

  /** A misidentification leaves an LED on track with one sample. */
  lemma RefuteTracks(d: Decoder, light: Light, b: seq<real>, n: nat, age: nat, led: LedState)
    requires 1 <= age <= n <= |b| && (!light.Unknown? ==> d.length >= 2)
    requires Tracks(d, light, b, n, age, led) && led.latest.brightness == b[n - 1]
    ensures Tracks(d, light, b, n, 1, Refute(led))
  {
    assert led.history != [];
    assert b[n - 1..n] == [b[n - 1]];
  }

  // ----- All LEDs

  /** The lights in view, as a sensor with these patterns knows them, and for each
      frame which of its blobs each light is. */
  datatype Scene = Scene(pats: seq<string>, lights: seq<Light>, at: seq<seq<nat>>)

  /** Each frame shows each light as one blob and nothing else. */
  ghost predicate WellFormed(scene: Scene, frames: seq<Frame>) {
    && |scene.at| == |frames|
    && forall f :: 0 <= f < |frames| ==>
         && |scene.at[f]| == |frames[f].blobs| == |scene.lights|
         && forall i :: 0 <= i < |scene.lights| ==> scene.at[f][i] < |frames[f].blobs|
  }

  /** The blobs of a frame in the order of the lights. */
  function Seen(scene: Scene, frames: seq<Frame>, f: nat): (r: seq<LedMeasurement>)
    requires WellFormed(scene, frames) && f < |frames|
    ensures |r| == |scene.lights|
  {
    seq(|scene.lights|, i requires 0 <= i < |scene.lights| => frames[f].blobs[scene.at[f][i]])
  }

  /** What the i-th light's brightness was, frame by frame. */
  function Brightnesses(scene: Scene, frames: seq<Frame>, i: nat): (b: seq<real>)
    requires WellFormed(scene, frames) && i < |scene.lights|
    ensures |b| == |frames|
  {
    seq(|frames|, f requires 0 <= f < |frames| => frames[f].blobs[scene.at[f][i]].brightness)
  }

  ghost predicate ClearLight(scene: Scene, length: nat, frames: seq<Frame>, i: nat)
    requires WellFormed(scene, frames) && i < |scene.lights|
  {
    Behaves(scene.lights[i], scene.pats, length, Brightnesses(scene, frames, i))
  }

  ghost predicate AllClearLights(scene: Scene, length: nat, frames: seq<Frame>)
    requires WellFormed(scene, frames)
  {
    forall i :: 0 <= i < |scene.lights| ==> ClearLight(scene, length, frames, i)
  }

  /** The lights are listed as the first frame shows them, they behave as their kinds say, and every
      later blob of a light is in reach of, and strictly nearest to, the one before. */
  ghost predicate Clear(params: Params, length: nat, scene: Scene, frames: seq<Frame>) {
    && WellFormed(scene, frames)
    && AllClearLights(scene, length, frames)
    && (frames != [] ==> forall i :: 0 <= i < |scene.lights| ==> scene.at[0][i] == i)
    && (forall f :: 0 < f < |frames| ==>
          TrueAssignment(params, Seen(scene, frames, f - 1), frames[f].blobs, scene.at[f]))
  }

  /** The next frame's blob of its own light keeps an LED on track. */
  lemma NextBlobTracks(d: Decoder, scene: Scene, frames: seq<Frame>, i: nat, n: nat, age: nat, led: LedState, blobsKeepId: bool)
    requires WellFormed(scene, frames) && i < |scene.lights| && ClearLight(scene, d.length, frames, i)
    requires MadeFrom(d, scene.pats) && n < |frames|
    requires Tracks(d, scene.lights[i], Brightnesses(scene, frames, i), n, age, led)
    ensures var next := Observe(led, frames[n].blobs[scene.at[n][i]], blobsKeepId);
      && next.latest == Seen(scene, frames, n)[i]
      && Tracks(d, scene.lights[i], Brightnesses(scene, frames, i), n + 1, age + 1, next)
  {
    var blob := frames[n].blobs[scene.at[n][i]];
    ObserveTracks(d, scene.pats, scene.lights[i], Brightnesses(scene, frames, i), n, age, led, blob, blobsKeepId);
    LatestOfObserve(led, blob, blobsKeepId);
  }

  /** Of the lights' samples up to frame n, the LEDs have had these many latest ones, and track them;
      each holds its light's blob of the frame before n. */
  ghost predicate OnTrack(d: Decoder, scene: Scene, frames: seq<Frame>, n: nat, ages: seq<nat>, leds: seq<LedState>)
    requires WellFormed(scene, frames) && 1 <= n <= |frames|
  {
    && |leds| == |ages| == |scene.lights|
    && Latest(leds) == Seen(scene, frames, n - 1)
    && forall i :: 0 <= i < |leds| ==>
         ages[i] >= 1 && Tracks(d, scene.lights[i], Brightnesses(scene, frames, i), n, ages[i], leds[i])
  }

  lemma LatestFromEach(leds: seq<LedState>, seen: seq<LedMeasurement>)
    requires |leds| == |seen| && forall i :: 0 <= i < |leds| ==> leds[i].latest == seen[i]
    ensures Latest(leds) == seen
  {
  }

  lemma BirthTracks(d: Decoder, scene: Scene, frames: seq<Frame>, i: nat, garbage: uint8)
    requires WellFormed(scene, frames) && i < |scene.lights| && ClearLight(scene, d.length, frames, i)
    requires MadeFrom(d, scene.pats) && frames != [] && scene.at[0][i] == i
    ensures var led := Birth(Some(d), frames[0].blobs[i], garbage);
      led.latest == Seen(scene, frames, 0)[i] && Tracks(d, scene.lights[i], Brightnesses(scene, frames, i), 1, 1, led)
  {
    var blank := LedState(frames[0].blobs[i], [], NO_IDENTIFIER_OR_INSUFFICIENT_DATA, Some(d), false, garbage, false);
    assert blank.history == Brightnesses(scene, frames, i)[0..0];
    NextBlobTracks(d, scene, frames, i, 0, 0, blank, false);
  }

  /** The first frame makes one LED per light. */
  lemma BirthsOnTrack(d: Decoder, scene: Scene, frames: seq<Frame>, garbage: nat -> uint8)
    requires WellFormed(scene, frames) && AllClearLights(scene, d.length, frames) && MadeFrom(d, scene.pats) && frames != []
    requires forall i :: 0 <= i < |scene.lights| ==> scene.at[0][i] == i
    ensures OnTrack(d, scene, frames, 1, seq(|scene.lights|, i => 1), Births(Some(d), frames[0].blobs, garbage))
  {
    var leds := Births(Some(d), frames[0].blobs, garbage);
    forall i | 0 <= i < |leds|
      ensures leds[i].latest == Seen(scene, frames, 0)[i]
      ensures Tracks(d, scene.lights[i], Brightnesses(scene, frames, i), 1, 1, leds[i])
    {
      BirthTracks(d, scene, frames, i, garbage(i));
    }
    LatestFromEach(leds, Seen(scene, frames, 0));
  }

  function OneOlder(ages: seq<nat>): (r: seq<nat>)
    ensures |r| == |ages|
  {
    seq(|ages|, i requires 0 <= i < |ages| => ages[i] + 1)
  }

  /** In a later frame every LED follows its own light. */
  lemma FollowersOnTrack(params: Params, d: Decoder, scene: Scene, frames: seq<Frame>, n: nat, ages: seq<nat>, leds: seq<LedState>)
    requires WellFormed(scene, frames) && AllClearLights(scene, d.length, frames) && MadeFrom(d, scene.pats) && 1 <= n < |frames|
    requires OnTrack(d, scene, frames, n, ages, leds)
    ensures OnTrack(d, scene, frames, n + 1, OneOlder(ages), FollowAll(params, leds, frames[n].blobs, scene.at[n]))
  {
    var next := FollowAll(params, leds, frames[n].blobs, scene.at[n]);
    forall i | 0 <= i < |leds|
      ensures next[i].latest == Seen(scene, frames, n)[i]
      ensures Tracks(d, scene.lights[i], Brightnesses(scene, frames, i), n + 1, ages[i] + 1, next[i])
    {
      FollowerTracks(params, d, scene, frames, n, i, ages[i], leds[i]);
    }
    LatestFromEach(next, Seen(scene, frames, n));
  }

  lemma FollowerTracks(params: Params, d: Decoder, scene: Scene, frames: seq<Frame>, n: nat, i: nat, age: nat, led: LedState)
    requires WellFormed(scene, frames) && i < |scene.lights| && ClearLight(scene, d.length, frames, i)
    requires MadeFrom(d, scene.pats) && n < |frames|
    requires Tracks(d, scene.lights[i], Brightnesses(scene, frames, i), n, age, led)
    ensures var next := Follow(params, led, frames[n].blobs[scene.at[n][i]]);
      && next.latest == Seen(scene, frames, n)[i]
      && Tracks(d, scene.lights[i], Brightnesses(scene, frames, i), n + 1, age + 1, next)
  {
    NextBlobTracks(d, scene, frames, i, n, age, led.(used := false), params.blobsKeepIdentity);
  }

  /** Verdicts may only refute LEDs that are identified. */
  ghost predicate Just(leds: seq<LedState>, verdicts: seq<Verdict>) {
    |leds| == |verdicts| && forall i :: 0 <= i < |leds| && verdicts[i].Misidentified? ==> Identified(leds[i])
  }

  lemma MarkTracks(d: Decoder, scene: Scene, frames: seq<Frame>, i: nat, n: nat, age: nat, led: LedState, v: Verdict)
    requires WellFormed(scene, frames) && i < |scene.lights| && ClearLight(scene, d.length, frames, i)
    requires MadeFrom(d, scene.pats) && 1 <= n <= |frames| && age >= 1
    requires led.latest == Seen(scene, frames, n - 1)[i] && (v.Misidentified? ==> Identified(led))
    requires Tracks(d, scene.lights[i], Brightnesses(scene, frames, i), n, age, led)
    ensures Mark(led, v).latest == led.latest
    ensures Tracks(d, scene.lights[i], Brightnesses(scene, frames, i), n, if v.Misidentified? then 1 else age, Mark(led, v))
  {
    if v.Misidentified? {
      if !scene.lights[i].Unknown? {
        IdentifiedIsLong(d, scene.lights[i], scene.pats, Brightnesses(scene, frames, i), n, age, led);
      }
      RefuteTracks(d, scene.lights[i], Brightnesses(scene, frames, i), n, age, led);
    }
  }

  /** An LED that tracks a known light and is identified tracks a beacon, whose code has both symbols. */
  lemma IdentifiedIsLong(d: Decoder, light: Light, pats: seq<string>, b: seq<real>, n: nat, age: nat, led: LedState)
    requires n <= |b| && Tracks(d, light, b, n, age, led) && Identified(led) && !light.Unknown?
    requires MadeFrom(d, pats) && Behaves(light, pats, d.length, b)
    ensures light.Beacon? && d.length >= 2
  {
    EnabledLength(d, pats, light.id);
  }

  /** The estimate keeps the LEDs on track: it refutes some and marks others as used. */
  lemma MarkedOnTrack(d: Decoder, scene: Scene, frames: seq<Frame>, n: nat, ages: seq<nat>, leds: seq<LedState>, verdicts: seq<Verdict>)
    requires WellFormed(scene, frames) && AllClearLights(scene, d.length, frames) && MadeFrom(d, scene.pats) && 1 <= n <= |frames|
    requires OnTrack(d, scene, frames, n, ages, leds) && Just(leds, verdicts)
    ensures OnTrack(d, scene, frames, n, Rejuvenated(ages, verdicts), MarkAll(leds, verdicts))
  {
    var marked := MarkAll(leds, verdicts);
    forall i | 0 <= i < |leds|
      ensures marked[i].latest == Seen(scene, frames, n - 1)[i]
      ensures Tracks(d, scene.lights[i], Brightnesses(scene, frames, i), n, Rejuvenated(ages, verdicts)[i], marked[i])
    {
      assert Latest(leds)[i] == leds[i].latest;
      MarkTracks(d, scene, frames, i, n, ages[i], leds[i], verdicts[i]);
    }
    LatestFromEach(marked, Seen(scene, frames, n - 1));
  }

  // ----- The run of a sensor

  /** The estimate of the last frame, on LEDs that matching left on track. */
  lemma EstimateStep(params: Params, d: Decoder, est: EstimatorState, scene: Scene, frames: seq<Frame>, n: nat)
    requires est.rig.Consistent() && WellFormed(scene, frames) && AllClearLights(scene, d.length, frames) && MadeFrom(d, scene.pats) && 1 <= n <= |frames|
    requires OnTrack(d, scene, frames, n, OneOlder(Ages(params, Some(d), est, frames[..n - 1], |scene.lights|)),
                     MatchedLast(params, Some(d), est, frames[..n]))
    ensures OnTrack(d, scene, frames, n, Ages(params, Some(d), est, frames[..n], |scene.lights|),
                    Run(params, Some(d), est, frames[..n]).leds)
  {
    var now := frames[..n];
    assert now[..n - 1] == frames[..n - 1];
    var ages := OneOlder(Ages(params, Some(d), est, frames[..n - 1], |scene.lights|));
    LedsStep(params, Some(d), est, now);
    AgesStep(params, Some(d), est, now, ages);
    LastVerdictsJust(params, d, est, now);
    MarkedOnTrack(d, scene, frames, n, ages, MatchedLast(params, Some(d), est, now), LastVerdicts(params, Some(d), est, now));
  }

  lemma LastVerdictsJust(params: Params, d: Decoder, est: EstimatorState, frames: seq<Frame>)
    requires est.rig.Consistent() && frames != []
    ensures Just(MatchedLast(params, Some(d), est, frames), LastVerdicts(params, Some(d), est, frames))
  {
    var leds, verdicts := MatchedLast(params, Some(d), est, frames), LastVerdicts(params, Some(d), est, frames);
    forall i | 0 <= i < |leds| && verdicts[i].Misidentified? ensures Identified(leds[i]) {
      assert RefutedLast(params, Some(d), est, frames, i);
      RefutedWasIdentified(params, Some(d), est, frames, i);
    }
  }

  /** Matching a later frame recovers which blob belongs to which LED. */
  lemma LaterMatch(params: Params, d: Decoder, est: EstimatorState, scene: Scene, frames: seq<Frame>, n: nat)
    requires est.rig.Consistent() && WellFormed(scene, frames) && 1 <= n < |frames|
    requires TrueAssignment(params, Seen(scene, frames, n - 1), frames[n].blobs, scene.at[n])
    requires Latest(Run(params, Some(d), est, frames[..n]).leds) == Seen(scene, frames, n - 1)
    ensures var before := Run(params, Some(d), est, frames[..n]).leds;
      && |before| == |scene.lights|
      && MatchedLast(params, Some(d), est, frames[..n + 1]) == FollowAll(params, before, frames[n].blobs, scene.at[n])
  {
    var before := Run(params, Some(d), est, frames[..n]).leds;
    assert |before| == |Latest(before)| == |Seen(scene, frames, n - 1)|;
    MatchedNext(params, Some(d), est, frames, n);
    UpdateFollows(params, Some(d), before, frames[n].blobs, scene.at[n], frames[n].input.garbage);
  }

  lemma FirstMatch(params: Params, d: Decoder, est: EstimatorState, frames: seq<Frame>)
    requires est.rig.Consistent() && frames != []
    ensures MatchedLast(params, Some(d), est, frames[..1]) == Births(Some(d), frames[0].blobs, frames[0].input.garbage)
  {
    MatchedNext(params, Some(d), est, frames, 0);
    var births := Births(Some(d), frames[0].blobs, frames[0].input.garbage);
    assert [] + births == births;
  }

  lemma FirstAges(params: Params, d: Decoder, est: EstimatorState, frames: seq<Frame>, count: nat)
    requires est.rig.Consistent()
    ensures OneOlder(Ages(params, Some(d), est, frames[..0], count)) == seq(count, i => 1)
  {
  }

  lemma FirstStep(params: Params, d: Decoder, est: EstimatorState, scene: Scene, frames: seq<Frame>)
    requires est.rig.Consistent() && Clear(params, d.length, scene, frames) && MadeFrom(d, scene.pats) && frames != []
    ensures OnTrack(d, scene, frames, 1, Ages(params, Some(d), est, frames[..1], |scene.lights|),
                    Run(params, Some(d), est, frames[..1]).leds)
  {
    FirstMatch(params, d, est, frames);
    BirthsOnTrack(d, scene, frames, frames[0].input.garbage);
    FirstAges(params, d, est, frames, |scene.lights|);
    EstimateStep(params, d, est, scene, frames, 1);
  }

  lemma LaterMatched(params: Params, d: Decoder, est: EstimatorState, scene: Scene, frames: seq<Frame>, n: nat, ages: seq<nat>)
    requires est.rig.Consistent() && WellFormed(scene, frames) && AllClearLights(scene, d.length, frames)
    requires MadeFrom(d, scene.pats) && 1 <= n < |frames|
    requires TrueAssignment(params, Seen(scene, frames, n - 1), frames[n].blobs, scene.at[n])
    requires OnTrack(d, scene, frames, n, ages, Run(params, Some(d), est, frames[..n]).leds)
    ensures OnTrack(d, scene, frames, n + 1, OneOlder(ages), MatchedLast(params, Some(d), est, frames[..n + 1]))
  {
    LaterMatch(params, d, est, scene, frames, n);
    FollowersOnTrack(params, d, scene, frames, n, ages, Run(params, Some(d), est, frames[..n]).leds);
  }

  lemma LaterStep(params: Params, d: Decoder, est: EstimatorState, scene: Scene, frames: seq<Frame>, n: nat)
    requires est.rig.Consistent() && WellFormed(scene, frames) && AllClearLights(scene, d.length, frames)
    requires MadeFrom(d, scene.pats) && 1 <= n < |frames|
    requires TrueAssignment(params, Seen(scene, frames, n - 1), frames[n].blobs, scene.at[n])
    requires OnTrack(d, scene, frames, n, Ages(params, Some(d), est, frames[..n], |scene.lights|),
                     Run(params, Some(d), est, frames[..n]).leds)
    ensures OnTrack(d, scene, frames, n + 1, Ages(params, Some(d), est, frames[..n + 1], |scene.lights|),
                    Run(params, Some(d), est, frames[..n + 1]).leds)
  {
    LaterMatched(params, d, est, scene, frames, n, Ages(params, Some(d), est, frames[..n], |scene.lights|));
    EstimateStep(params, d, est, scene, frames, n + 1);
  }

  lemma {:induction false} StaysOnTrack(params: Params, d: Decoder, est: EstimatorState, scene: Scene, frames: seq<Frame>, n: nat)
    requires est.rig.Consistent() && Clear(params, d.length, scene, frames) && MadeFrom(d, scene.pats) && 1 <= n <= |frames|
    ensures OnTrack(d, scene, frames, n, Ages(params, Some(d), est, frames[..n], |scene.lights|),
                    Run(params, Some(d), est, frames[..n]).leds)
  {
    if n == 1 {
      FirstStep(params, d, est, scene, frames);
    } else {
      StaysOnTrack(params, d, est, scene, frames, n - 1);
      LaterStep(params, d, est, scene, frames, n - 1);
    }
  }

  // ----- What the LEDs of one sensor carry

  /** The ID that the LED of a light carries after this many samples, when the light's kind determines it. */
  ghost predicate Carries(d: Decoder, light: Light, age: nat, id: int) {
    match light
    case Beacon(beacon, _) => id == if age >= d.length then beacon else NO_IDENTIFIER_OR_INSUFFICIENT_DATA
    case Foreign(_, _) => id == if age >= d.length then NO_PATTERN_RECOGNIZED else NO_IDENTIFIER_OR_INSUFFICIENT_DATA
    case Steady => id == if age >= d.length then INSUFFICIENT_EXTREMA_DIFFERENCE else NO_IDENTIFIER_OR_INSUFFICIENT_DATA
    case Unknown => true
  }

  /** End to end: after every frame of a clear scene the tracker has exactly one LED per light and each holds
      its light's blob. The LED of a beacon carries the beacon's ID just when it has had a full window of samples
      since it was created or last refuted; the LED of any other light that is known carries no ID.
      Keeping IDs or not makes no difference. */
  lemma IdentifiesBeacons(params: Params, d: Decoder, est: EstimatorState, scene: Scene, frames: seq<Frame>)
    requires est.rig.Consistent() && Clear(params, d.length, scene, frames) && MadeFrom(d, scene.pats) && frames != []
    ensures var leds := Run(params, Some(d), est, frames).leds;
      && |leds| == |scene.lights|
      && Latest(leds) == Seen(scene, frames, |frames| - 1)
      && forall i :: 0 <= i < |leds| ==> Carries(d, scene.lights[i], Age(params, Some(d), est, frames, i), leds[i].id)
  {
    assert frames[..|frames|] == frames;
    StaysOnTrack(params, d, est, scene, frames, |frames|);
    var leds := Run(params, Some(d), est, frames).leds;
    forall i | 0 <= i < |leds| ensures Carries(d, scene.lights[i], Age(params, Some(d), est, frames, i), leds[i].id) {
      assert Tracks(d, scene.lights[i], Brightnesses(scene, frames, i), |frames|, Age(params, Some(d), est, frames, i), leds[i]);
    }
  }

  /** An LED that is never refuted is as old as the run. */
  lemma {:induction false} AgeUnrefuted(params: Params, d: Decoder, est: EstimatorState, frames: seq<Frame>, i: nat)
    requires est.rig.Consistent()
    requires forall n :: 0 < n <= |frames| ==> !RefutedLast(params, Some(d), est, frames[..n], i)
    ensures Age(params, Some(d), est, frames, i) == |frames|
  {
    if frames != [] {
      var init := frames[..|frames| - 1];
      assert frames[..|frames|] == frames;
      forall n | 0 < n <= |init| ensures !RefutedLast(params, Some(d), est, init[..n], i) {
        assert init[..n] == frames[..n];
      }
      AgeUnrefuted(params, d, est, init, i);
    }
  }

  /** In a run that refutes nothing, every beacon's LED carries the beacon's ID from the frame on
      that completes the first window. */
  lemma AllIdentifiedAfterFirstWindow(params: Params, d: Decoder, est: EstimatorState, scene: Scene, frames: seq<Frame>)
    requires est.rig.Consistent() && Clear(params, d.length, scene, frames) && MadeFrom(d, scene.pats) && |frames| >= d.length
    requires forall n, i :: 0 < n <= |frames| && 0 <= i < |scene.lights| ==> !RefutedLast(params, Some(d), est, frames[..n], i)
    ensures var leds := Run(params, Some(d), est, frames).leds;
      && |leds| == |scene.lights|
      && forall i :: 0 <= i < |leds| && scene.lights[i].Beacon? ==> leds[i].id == scene.lights[i].id
  {
    IdentifiesBeacons(params, d, est, scene, frames);
    forall i | 0 <= i < |scene.lights| ensures Age(params, Some(d), est, frames, i) == |frames| {
      AgeUnrefuted(params, d, est, frames, i);
    }
  }
}
