/** What every frame of a sensor keeps, whatever its blobs are. */
module SensorHistory {
  import opened Types
  import opened LedIdentifier
  import opened LedModel
  import LedHistory
  import opened Matching
  import opened PoseModel
  import opened SensorModel
  import opened SensorRun

  // ----- Blobs and LEDs

  lemma LatestOfMark(leds: seq<LedState>, verdicts: seq<Verdict>)
    requires |leds| == |verdicts|
    ensures Latest(MarkAll(leds, verdicts)) == Latest(leds)
  {
    forall i | 0 <= i < |leds| ensures Mark(leds[i], verdicts[i]).latest == leds[i].latest {
    }
  }

  /** After a whole frame the LEDs' latest measurements are the blobs of the frame,
      each held by exactly one LED. */
  lemma FrameConservesBlobs(params: Params, identifier: Option<Decoder>, s: SensorState,
                            blobs: seq<LedMeasurement>, input: FrameInput)
    requires s.est.rig.Consistent()
    ensures multiset(Latest(SensorStep(params, identifier, s, blobs, input).leds)) == multiset(blobs)
  {
    var leds := MatchedLeds(params, identifier, s, blobs, input);
    BlobsConserved(params, identifier, s.leds, blobs, input.garbage);
    LatestOfMark(leds, Verdicts(s.est.rig, input.estimate, leds));
  }

  // ----- Used flags

  ghost predicate AllUnused(leds: seq<LedState>) {
    forall i :: 0 <= i < |leds| ==> !leds[i].used
  }

  lemma {:induction false} MatchClearsUsed(params: Params, leds: seq<LedState>, blobs: seq<LedMeasurement>)
    ensures AllUnused(Match(params, leds, blobs).0)
  {
    if leds != [] {
      var k := Pick(params, leds[0], blobs);
      if k == |blobs| {
        MatchClearsUsed(params, leds[1..], blobs);
      } else {
        MatchClearsUsed(params, leds[1..], Remove(blobs, k));
      }
    }
  }

  lemma BirthsUnused(identifier: Option<Decoder>, blobs: seq<LedMeasurement>, garbage: nat -> uint8)
    ensures AllUnused(Births(identifier, blobs, garbage))
  {
    forall i | 0 <= i < |blobs| ensures !Birth(identifier, blobs[i], garbage(i)).used {
      var blank := LedState(blobs[i], [], NO_IDENTIFIER_OR_INSUFFICIENT_DATA, identifier, false, garbage(i), false);
      ObserveKeepsUsed(blank, blobs[i], false);
    }
  }

  lemma ObserveKeepsUsed(led: LedState, meas: LedMeasurement, blobsKeepId: bool)
    ensures Observe(led, meas, blobsKeepId).used == led.used
  {
  }

  /** After a frame an LED's used flag is set if and only if it supplied a correction in that frame. */
  lemma UsedIffCorrected(params: Params, identifier: Option<Decoder>, s: SensorState,
                         blobs: seq<LedMeasurement>, input: FrameInput)
    requires s.est.rig.Consistent()
    ensures var leds, next := MatchedLeds(params, identifier, s, blobs, input), SensorStep(params, identifier, s, blobs, input).leds;
      |next| == |leds| &&
      forall i :: 0 <= i < |next| ==>
        (next[i].used <==> UsesKalman(s.est, leds) && Verdicts(s.est.rig, input.estimate, leds)[i].Used())
  {
    MatchClearsUsed(params, s.leds, blobs);
    BirthsUnused(identifier, Match(params, s.leds, blobs).1, input.garbage);
    assert AllUnused(MatchedLeds(params, identifier, s, blobs, input));
  }

  // ----- IDs

  /** The LED decodes with d, and any ID it has names an enabled pattern that blinks. */
  ghost predicate SoundId(d: Decoder, pats: seq<string>, led: LedState) {
    led.identifier == Some(d) && (Identified(led) ==> Blinks(pats, led.id))
  }

  ghost predicate AllSound(d: Decoder, pats: seq<string>, leds: seq<LedState>) {
    forall i :: 0 <= i < |leds| ==> SoundId(d, pats, leds[i])
  }

  lemma ObserveSound(d: Decoder, pats: seq<string>, led: LedState, meas: LedMeasurement, blobsKeepId: bool)
    requires MadeFrom(d, pats) && SoundId(d, pats, led)
    ensures SoundId(d, pats, Observe(led, meas, blobsKeepId))
  {
    LedHistory.ObservedPatternBlinks(d, pats, led, meas, blobsKeepId);
  }

  lemma {:induction false} MatchSound(params: Params, d: Decoder, pats: seq<string>, leds: seq<LedState>, blobs: seq<LedMeasurement>)
    requires MadeFrom(d, pats) && AllSound(d, pats, leds)
    ensures AllSound(d, pats, Match(params, leds, blobs).0)
  {
    if leds != [] {
      var k := Pick(params, leds[0], blobs);
      if k == |blobs| {
        MatchSound(params, d, pats, leds[1..], blobs);
      } else {
        ObserveSound(d, pats, leds[0].(used := false), blobs[k], params.blobsKeepIdentity);
        MatchSound(params, d, pats, leds[1..], Remove(blobs, k));
      }
    }
  }

  lemma BirthsSound(d: Decoder, pats: seq<string>, blobs: seq<LedMeasurement>, garbage: nat -> uint8)
    requires MadeFrom(d, pats)
    ensures AllSound(d, pats, Births(Some(d), blobs, garbage))
  {
    forall i | 0 <= i < |blobs| ensures SoundId(d, pats, Birth(Some(d), blobs[i], garbage(i))) {
      var blank := LedState(blobs[i], [], NO_IDENTIFIER_OR_INSUFFICIENT_DATA, Some(d), false, garbage(i), false);
      ObserveSound(d, pats, blank, blobs[i], false);
    }
  }

  lemma MarkSound(d: Decoder, pats: seq<string>, leds: seq<LedState>, verdicts: seq<Verdict>)
    requires AllSound(d, pats, leds) && |leds| == |verdicts|
    ensures AllSound(d, pats, MarkAll(leds, verdicts))
  {
    forall i | 0 <= i < |leds| ensures SoundId(d, pats, Mark(leds[i], verdicts[i])) {
      assert SoundId(d, pats, leds[i]);
    }
  }

  lemma StepSound(params: Params, d: Decoder, pats: seq<string>, s: SensorState, blobs: seq<LedMeasurement>, input: FrameInput)
    requires MadeFrom(d, pats) && AllSound(d, pats, s.leds) && s.est.rig.Consistent()
    ensures AllSound(d, pats, SensorStep(params, Some(d), s, blobs, input).leds)
  {
    var (survivors, rest) := Match(params, s.leds, blobs);
    var leds := MatchedLeds(params, Some(d), s, blobs, input);
    MatchSound(params, d, pats, s.leds, blobs);
    BirthsSound(d, pats, rest, input.garbage);
    assert AllSound(d, pats, leds);
    MarkSound(d, pats, leds, Verdicts(s.est.rig, input.estimate, leds));
  }

  /** In every run, on any blobs at all, every ID that an LED carries names an enabled
      pattern with both symbols. */
  lemma {:induction false} CarriedIdsBlink(params: Params, d: Decoder, pats: seq<string>, est: EstimatorState, frames: seq<Frame>)
    requires MadeFrom(d, pats) && est.rig.Consistent()
    ensures AllSound(d, pats, Run(params, Some(d), est, frames).leds)
  {
    if frames != [] {
      var n := |frames| - 1;
      CarriedIdsBlink(params, d, pats, est, frames[..n]);
      StepSound(params, d, pats, Run(params, Some(d), est, frames[..n]), frames[n].blobs, frames[n].input);
    }
  }

  // ----- Samples

  ghost predicate AllHaveSamples(leds: seq<LedState>) {
    forall i :: 0 <= i < |leds| ==> leds[i].history != []
  }

  lemma ObservedHasSamples(led: LedState, meas: LedMeasurement, blobsKeepId: bool)
    ensures Observe(led, meas, blobsKeepId).history != []
  {
    LedHistory.ObservedHistory(led, meas, blobsKeepId);
  }

  lemma ConsHasSamples(led: LedState, rest: seq<LedState>)
    requires led.history != [] && AllHaveSamples(rest)
    ensures AllHaveSamples([led] + rest)
  {
  }

  lemma {:induction false} MatchHasSamples(params: Params, leds: seq<LedState>, blobs: seq<LedMeasurement>)
    ensures AllHaveSamples(Match(params, leds, blobs).0)
  {
    if leds != [] {
      var k := Pick(params, leds[0], blobs);
      if k == |blobs| {
        MatchHasSamples(params, leds[1..], blobs);
      } else {
        ObservedHasSamples(leds[0].(used := false), blobs[k], params.blobsKeepIdentity);
        MatchHasSamples(params, leds[1..], Remove(blobs, k));
        ConsHasSamples(Follow(params, leds[0], blobs[k]), Match(params, leds[1..], Remove(blobs, k)).0);
      }
    }
  }

  /** Every LED that is there after matching has at least the sample of this frame. */
  lemma MatchedHaveSamples(params: Params, d: Decoder, s: SensorState, blobs: seq<LedMeasurement>, input: FrameInput)
    ensures AllHaveSamples(MatchedLeds(params, Some(d), s, blobs, input))
  {
    MatchHasSamples(params, s.leds, blobs);
    var rest := Match(params, s.leds, blobs).1;
    forall i | 0 <= i < |rest| ensures Birth(Some(d), rest[i], input.garbage(i)).history != [] {
      var blank := LedState(rest[i], [], NO_IDENTIFIER_OR_INSUFFICIENT_DATA, Some(d), false, input.garbage(i), false);
      ObservedHasSamples(blank, rest[i], false);
    }
  }
}
