/** Properties of a blob over every sequence of operations after its creation. */
module LedHistory {
  import opened Types
  import IdentifierHelpers
  import opened LedIdentifier
  import opened LedModel

  datatype LedEvent =
    | Measured(meas: LedMeasurement, blobsKeepId: bool)
    | Misidentified
    | UsedFlag(used: bool)

  function Apply(led: LedState, e: LedEvent): LedState {
    match e
    case Measured(meas, blobsKeepId) => Observe(led, meas, blobsKeepId)
    case Misidentified => Refute(led)
    case UsedFlag(used) => led.(used := used)
  }

  function Run(led: LedState, events: seq<LedEvent>): LedState {
    if events == [] then led
    else Apply(Run(led, events[..|events| - 1]), events[|events| - 1])
  }

  /** The brightnesses since creation, or since (and with) the sample that
      the last misidentification kept. */
  function Samples(first: LedMeasurement, events: seq<LedEvent>): (s: seq<real>)
    ensures s != []
  {
    if events == [] then [first.brightness]
    else
      var before := Samples(first, events[..|events| - 1]);
      match events[|events| - 1]
      case Measured(meas, _) => before + [meas.brightness]
      case Misidentified => [before[|before| - 1]]
      case UsedFlag(_) => before
  }

  /** A blob with an identifier retains exactly the last `length` samples, one without
      an identifier all of them. */
  lemma {:induction false} SlidingWindow(identifier: Option<Decoder>, first: LedMeasurement, garbage: uint8, events: seq<LedEvent>)
    ensures var led, samples := Run(Birth(identifier, first, garbage), events), Samples(first, events);
      && led.identifier == identifier
      && led.latest.brightness == samples[|samples| - 1]
      && led.history == match identifier case None => samples case Some(d) => LastN(samples, d.length)
  {
    if events == [] {
      ObservedHistory(LedState(first, [], NO_IDENTIFIER_OR_INSUFFICIENT_DATA, identifier, false, garbage, false), first, false);
      assert [] + [first.brightness] == [first.brightness];
    } else {
      var init, e := events[..|events| - 1], events[|events| - 1];
      SlidingWindow(identifier, first, garbage, init);
      if e.Measured? {
        ObservedHistory(Run(Birth(identifier, first, garbage), init), e.meas, e.blobsKeepId);
        if identifier.Some? {
          WindowSlides(Samples(first, init), e.meas.brightness, identifier.value.length);
        }
      }
    }
  }

  /** What an observation leaves of the history. */
  lemma ObservedHistory(led: LedState, meas: LedMeasurement, blobsKeepId: bool)
    ensures var next, history := Observe(led, meas, blobsKeepId), led.history + [meas.brightness];
      && next.identifier == led.identifier && next.latest == meas
      && next.history == match led.identifier case None => history case Some(d) => LastN(history, d.length)
  {
  }

  /** Truncating early or late leaves the same window. */
  lemma WindowSlides(before: seq<real>, x: real, n: nat)
    ensures LastN(LastN(before, n) + [x], n) == LastN(before + [x], n)
  {
  }

  /** No measurement came since the last misidentification. */
  predicate JustRefuted(events: seq<LedEvent>) {
    events != [] &&
    match events[|events| - 1]
    case Measured(_, _) => false
    case Misidentified => true
    case UsedFlag(_) => JustRefuted(events[..|events| - 1])
  }

  /** The ID is unknown exactly while there are fewer samples than the pattern length. A window of one is
      full with the sample that a misidentification keeps, but the ID comes back only with the next. */
  lemma {:induction false} UnknownIffTooFewSamples(d: Decoder, first: LedMeasurement, garbage: uint8, events: seq<LedEvent>)
    ensures Run(Birth(Some(d), first, garbage), events).id == NO_IDENTIFIER_OR_INSUFFICIENT_DATA
            <==> |Samples(first, events)| < d.length || (d.length == 1 && JustRefuted(events))
  {
    if events != [] {
      var init := events[..|events| - 1];
      UnknownIffTooFewSamples(d, first, garbage, init);
      SlidingWindow(Some(d), first, garbage, init);
      var before := Run(Birth(Some(d), first, garbage), init);
      var e := events[|events| - 1];
      if e.Measured? {
        KnownIffEnough(d, before, e.meas, e.blobsKeepId);
      }
    }
  }

  lemma KnownIffEnough(d: Decoder, led: LedState, meas: LedMeasurement, blobsKeepId: bool)
    requires led.identifier == Some(d)
    ensures Observe(led, meas, blobsKeepId).id == NO_IDENTIFIER_OR_INSUFFICIENT_DATA
            <==> |led.history| + 1 < d.length
  {
  }

  function CountMeasured(events: seq<LedEvent>): nat {
    if events == [] then 0
    else CountMeasured(events[..|events| - 1]) + if events[|events| - 1].Measured? then 1 else 0
  }

  lemma {:induction false} SamplesAfterMisidentification(first: LedMeasurement, before: seq<LedEvent>, after: seq<LedEvent>)
    ensures |Samples(first, before + [Misidentified] + after)| <= 1 + CountMeasured(after)
  {
    var events := before + [Misidentified] + after;
    if after == [] {
      assert events == before + [Misidentified];
    } else {
      assert events[..|events| - 1] == before + [Misidentified] + after[..|after| - 1];
      SamplesAfterMisidentification(first, before, after[..|after| - 1]);
    }
  }

  /** A misidentified blob stays unidentified for the next `length` - 2 measurements,
      whether or not blobs keep their IDs. */
  lemma MisidentificationHolds(d: Decoder, first: LedMeasurement, garbage: uint8, before: seq<LedEvent>, after: seq<LedEvent>)
    requires CountMeasured(after) <= d.length - 2
    ensures Run(Birth(Some(d), first, garbage), before + [Misidentified] + after).id == NO_IDENTIFIER_OR_INSUFFICIENT_DATA
  {
    SamplesAfterMisidentification(first, before, after);
    UnknownIffTooFewSamples(d, first, garbage, before + [Misidentified] + after);
  }

  /** Every ID a blob ever reports names an enabled pattern that holds both symbols. */
  lemma {:induction false} ReportedPatternsBlink(d: Decoder, pats: seq<string>, first: LedMeasurement, garbage: uint8, events: seq<LedEvent>)
    requires MadeFrom(d, pats)
    ensures var led := Run(Birth(Some(d), first, garbage), events); Identified(led) ==> Blinks(pats, led.id)
  {
    var start := Birth(Some(d), first, garbage);
    if events == [] {
      ObservedPatternBlinks(d, pats, LedState(first, [], NO_IDENTIFIER_OR_INSUFFICIENT_DATA, Some(d), false, garbage, false), first, false);
    } else {
      var init := events[..|events| - 1];
      ReportedPatternsBlink(d, pats, first, garbage, init);
      SlidingWindow(Some(d), first, garbage, init);
      var e := events[|events| - 1];
      if e.Measured? {
        ObservedPatternBlinks(d, pats, Run(start, init), e.meas, e.blobsKeepId);
      }
    }
  }

  lemma ObservedPatternBlinks(d: Decoder, pats: seq<string>, led: LedState, meas: LedMeasurement, blobsKeepId: bool)
    requires MadeFrom(d, pats) && led.identifier == Some(d)
    requires Identified(led) ==> Blinks(pats, led.id)
    ensures var next := Observe(led, meas, blobsKeepId); Identified(next) ==> Blinks(pats, next.id)
  {
    var history := led.history + [meas.brightness];
    if |history| >= d.length {
      var window := LastN(history, d.length);
      if Decode(d, window) >= 0 && IdentifierHelpers.Spread(window) > MIN_BRIGHTNESS_DIFF {
        DecodedPatternBlinks(d, pats, window);
      }
    }
  }

  /** Measurements since the current ID was acquired: how many of the latest ones left it as it was. */
  function SinceAcquired(start: LedState, events: seq<LedEvent>): nat {
    if events == [] then 0
    else
      var init := events[..|events| - 1];
      if Run(start, events).id != Run(start, init).id then 0
      else SinceAcquired(start, init) + if events[|events| - 1].Measured? then 1 else 0
  }

  /** The novelty of an identified blob counts down from the acquisition of its ID,
      whatever the uninitialised byte held. */
  lemma {:induction false} NoveltyCountsDown(d: Decoder, first: LedMeasurement, garbage: uint8, events: seq<LedEvent>)
    ensures var start := Birth(Some(d), first, garbage);
      var led := Run(start, events);
      Identified(led) ==>
        led.novelty as int == if SinceAcquired(start, events) <= 4 then 4 - SinceAcquired(start, events) else 0
  {
    var start := Birth(Some(d), first, garbage);
    if events != [] {
      var init := events[..|events| - 1];
      NoveltyCountsDown(d, first, garbage, init);
      SlidingWindow(Some(d), first, garbage, init);
    }
  }

  /** How many measurements came since the last one that changed the ID, if there was one. */
  function SinceRecognised(start: LedState, events: seq<LedEvent>): Option<nat> {
    if events == [] then None
    else
      var init := events[..|events| - 1];
      if !events[|events| - 1].Measured? then SinceRecognised(start, init)
      else if Run(start, events).id != Run(start, init).id then Some(0)
      else match SinceRecognised(start, init) case None => None case Some(n) => Some(n + 1)
  }

  /** Whatever its ID, an LED's novelty is 4 less the measurements since the last one that changed the ID, or the novelty
      it started with less all measurements, and at least 0; nothing but measurements affects it. */
  lemma {:induction false} NoveltyDecays(start: LedState, events: seq<LedEvent>)
    requires start.identifier.Some?
    ensures var led := Run(start, events);
      && led.identifier == start.identifier
      && led.novelty as int == AtLeastZero(match SinceRecognised(start, events)
                                           case None => start.novelty - CountMeasured(events)
                                           case Some(n) => 4 - n)
  {
    if events != [] {
      var init, e := events[..|events| - 1], events[|events| - 1];
      NoveltyDecays(start, init);
      if e.Measured? {
        ObservedNovelty(Run(start, init), e.meas, e.blobsKeepId);
      }
    }
  }

  function AtLeastZero(n: int): nat {
    if n < 0 then 0 else n
  }

  lemma ObservedNovelty(led: LedState, meas: LedMeasurement, blobsKeepId: bool)
    requires led.identifier.Some?
    ensures var next := Observe(led, meas, blobsKeepId);
      && next.identifier == led.identifier
      && next.novelty as int == if next.id != led.id then 4 else AtLeastZero(led.novelty - 1)
  {
  }
}
