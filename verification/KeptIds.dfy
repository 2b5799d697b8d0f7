/** When an LED keeps its ID, when it is read afresh, and what its bright flag says. */
module KeptIds {
  import opened Types
  import opened Rotations
  import opened IdentifierHelpers
  import opened LedIdentifier
  import opened LedModel
  import opened LedHistory
  import Matching

  predicate WithinLeast(window: seq<real>, i: nat, j: nat)
    requires i < |window| && j < |window|
  {
    window[i] - window[j] <= 0.3
  }

  /** No two samples are more than 0.3 apart. */
  ghost predicate Flat(window: seq<real>) {
    forall i: nat, j: nat {:trigger WithinLeast(window, i, j)} :: i < |window| && j < |window| ==> WithinLeast(window, i, j)
  }

  lemma FlatIff(window: seq<real>)
    requires window != []
    ensures Flat(window) <==> Spread(window) <= MIN_BRIGHTNESS_DIFF
  {
    var hi, lo := ExtremaPlaces(window);
    if Flat(window) {
      assert WithinLeast(window, hi, lo);
    }
  }

  /** The window that a further sample completes. */
  function WindowAfter(d: Decoder, led: LedState, meas: LedMeasurement): (window: seq<real>)
    ensures window != []
  {
    LastN(led.history + [meas.brightness], d.length)
  }

  /** A full window of too little spread gives -2, whatever the LED's ID was, and leaves the bright flag. No other one does. */
  lemma FlatIsUnread(d: Decoder, led: LedState, meas: LedMeasurement, blobsKeepId: bool)
    requires led.identifier == Some(d) && |led.history| + 1 >= d.length
    ensures var next := Observe(led, meas, blobsKeepId);
      && (next.id == -2 <==> Flat(WindowAfter(d, led, meas)))
      && (next.id == -2 ==> next.lastBright == led.lastBright)
  {
    FlatIff(WindowAfter(d, led, meas));
  }

  /** With the option on, an identified LED keeps its ID whatever its window would decode to. */
  lemma IdentifiedKeepsId(d: Decoder, led: LedState, meas: LedMeasurement)
    requires led.identifier == Some(d) && |led.history| + 1 >= d.length && Identified(led)
    ensures Observe(led, meas, true).id == if Flat(WindowAfter(d, led, meas)) then -2 else led.id
  {
    FlatIff(WindowAfter(d, led, meas));
  }

  /** With the option off, or without an ID, the window is read afresh. */
  lemma OthersReadAfresh(d: Decoder, led: LedState, meas: LedMeasurement, blobsKeepId: bool)
    requires led.identifier == Some(d) && |led.history| + 1 >= d.length
    requires !(blobsKeepId && Identified(led)) && !Flat(WindowAfter(d, led, meas))
    ensures Observe(led, meas, blobsKeepId).id == Decode(d, WindowAfter(d, led, meas))
  {
    FlatIff(WindowAfter(d, led, meas));
  }

  /** The tracker's option decides which of the two an LED does that follows its blob. */
  lemma FollowerKeepsIff(params: Matching.Params, d: Decoder, led: LedState, blob: LedMeasurement)
    requires led.identifier == Some(d) && |led.history| + 1 >= d.length && !Flat(WindowAfter(d, led, blob))
    ensures Matching.Follow(params, led, blob).id
            == if params.blobsKeepIdentity && Identified(led) then led.id else Decode(d, WindowAfter(d, led, blob))
  {
    FlatIff(WindowAfter(d, led, blob));
  }

  // ----- Over every life

  /** The window of a life. */
  function WindowOf(d: Decoder, first: LedMeasurement, events: seq<LedEvent>): seq<real> {
    LastN(Samples(first, events), d.length)
  }

  /** What the window is before the last event is what its completion starts from. */
  lemma WindowContinues(d: Decoder, first: LedMeasurement, garbage: uint8, events: seq<LedEvent>)
    requires events != [] && events[|events| - 1].Measured?
    ensures var led, e := Run(Birth(Some(d), first, garbage), events[..|events| - 1]), events[|events| - 1];
      && led.identifier == Some(d) && WindowAfter(d, led, e.meas) == WindowOf(d, first, events)
      && (|led.history| + 1 >= d.length <==> |Samples(first, events)| >= d.length)
  {
    var init, e := events[..|events| - 1], events[|events| - 1];
    SlidingWindow(Some(d), first, garbage, init);
    WindowSlides(Samples(first, init), e.meas.brightness, d.length);
  }

  /** What the last event does to the ID of an identified LED that keeps IDs. */
  lemma IdentifiedStep(d: Decoder, first: LedMeasurement, garbage: uint8, events: seq<LedEvent>)
    requires events != [] && Identified(Run(Birth(Some(d), first, garbage), events[..|events| - 1]))
    requires events[|events| - 1].Measured? ==> events[|events| - 1].blobsKeepId
    ensures var start := Birth(Some(d), first, garbage);
      Run(start, events).id == match events[|events| - 1]
                               case Measured(_, _) => if Flat(WindowOf(d, first, events)) then -2 else Run(start, events[..|events| - 1]).id
                               case Misidentified => -1
                               case UsedFlag(_) => Run(start, events[..|events| - 1]).id
  {
    var init, e := events[..|events| - 1], events[|events| - 1];
    if e.Measured? {
      WindowContinues(d, first, garbage, events);
      SamplesWhenIdentified(d, first, garbage, init);
      IdentifiedKeepsId(d, Run(Birth(Some(d), first, garbage), init), e.meas);
    }
  }

  lemma SamplesWhenIdentified(d: Decoder, first: LedMeasurement, garbage: uint8, events: seq<LedEvent>)
    requires Identified(Run(Birth(Some(d), first, garbage), events))
    ensures |Samples(first, events)| >= d.length
  {
    UnknownIffTooFewSamples(d, first, garbage, events);
  }

  /** The last event takes the ID from an LED that keeps IDs. */
  ghost predicate Upsets(d: Decoder, first: LedMeasurement, events: seq<LedEvent>)
    requires events != []
  {
    var e := events[|events| - 1];
    e.Misidentified? || (e.Measured? && Flat(WindowOf(d, first, events)))
  }

  ghost predicate KeepsIds(events: seq<LedEvent>) {
    forall n :: 0 <= n < |events| && events[n].Measured? ==> events[n].blobsKeepId
  }

  /** After n of the later events the LED has the ID that it had before them. */
  ghost predicate SameId(d: Decoder, first: LedMeasurement, garbage: uint8, before: seq<LedEvent>, after: seq<LedEvent>, n: nat)
    requires n <= |after|
  {
    Run(Birth(Some(d), first, garbage), before + after[..n]).id == Run(Birth(Some(d), first, garbage), before).id
  }

  /** The n-th of the later events takes its ID. */
  ghost predicate UpsetAt(d: Decoder, first: LedMeasurement, before: seq<LedEvent>, after: seq<LedEvent>, n: nat)
    requires 0 < n <= |after|
  {
    Upsets(d, first, before + after[..n])
  }

  lemma HeldStep(d: Decoder, first: LedMeasurement, garbage: uint8, before: seq<LedEvent>, after: seq<LedEvent>, n: nat)
    requires Identified(Run(Birth(Some(d), first, garbage), before)) && KeepsIds(after) && n < |after|
    requires SameId(d, first, garbage, before, after, n)
    ensures SameId(d, first, garbage, before, after, n + 1) <==> !UpsetAt(d, first, before, after, n + 1)
  {
    var events := before + after[..n + 1];
    assert events[..|events| - 1] == before + after[..n] && events[|events| - 1] == after[n];
    IdentifiedStep(d, first, garbage, events);
  }

  ghost predicate AllSame(d: Decoder, first: LedMeasurement, garbage: uint8, before: seq<LedEvent>, after: seq<LedEvent>, m: nat)
    requires m <= |after|
  {
    forall n :: 0 <= n <= m ==> SameId(d, first, garbage, before, after, n)
  }

  ghost predicate NoneUpset(d: Decoder, first: LedMeasurement, before: seq<LedEvent>, after: seq<LedEvent>, m: nat)
    requires m <= |after|
  {
    forall n :: 0 < n <= m ==> !UpsetAt(d, first, before, after, n)
  }

  lemma AllSameStep(d: Decoder, first: LedMeasurement, garbage: uint8, before: seq<LedEvent>, after: seq<LedEvent>, m: nat)
    requires 0 < m <= |after|
    ensures AllSame(d, first, garbage, before, after, m)
            <==> AllSame(d, first, garbage, before, after, m - 1) && SameId(d, first, garbage, before, after, m)
  {
  }

  lemma NoneUpsetStep(d: Decoder, first: LedMeasurement, before: seq<LedEvent>, after: seq<LedEvent>, m: nat)
    requires 0 < m <= |after|
    ensures NoneUpset(d, first, before, after, m)
            <==> NoneUpset(d, first, before, after, m - 1) && !UpsetAt(d, first, before, after, m)
  {
  }

  /** Over every life with the option on: an identified LED has the same ID all along if and only
      if no misidentification and no window of too little spread comes in between. */
  lemma {:induction false} IdHeldIff(d: Decoder, first: LedMeasurement, garbage: uint8, before: seq<LedEvent>, after: seq<LedEvent>, m: nat)
    requires Identified(Run(Birth(Some(d), first, garbage), before)) && KeepsIds(after) && m <= |after|
    ensures AllSame(d, first, garbage, before, after, m) <==> NoneUpset(d, first, before, after, m)
  {
    if m == 0 {
      NothingYet(d, first, garbage, before, after);
    } else {
      IdHeldIff(d, first, garbage, before, after, m - 1);
      AllSameStep(d, first, garbage, before, after, m);
      NoneUpsetStep(d, first, before, after, m);
      if AllSame(d, first, garbage, before, after, m - 1) {
        assert SameId(d, first, garbage, before, after, m - 1);
        HeldStep(d, first, garbage, before, after, m - 1);
      }
    }
  }

  lemma NothingYet(d: Decoder, first: LedMeasurement, garbage: uint8, before: seq<LedEvent>, after: seq<LedEvent>)
    ensures AllSame(d, first, garbage, before, after, 0) && NoneUpset(d, first, before, after, 0)
  {
    assert before + after[..0] == before;
  }

  // ----- The bright flag

  /** The latest sample is in the upper half of the window's range. */
  predicate LatestIsHigh(window: seq<real>)
    requires window != []
  {
    window[|window| - 1] - Dimmest(window) >= Brightest(window) - window[|window| - 1]
  }

  /** What the last window that was read says, and false before the first. */
  ghost predicate ShownBright(d: Decoder, first: LedMeasurement, events: seq<LedEvent>) {
    events != [] &&
    var window := WindowOf(d, first, events);
    if events[|events| - 1].Measured? && |window| == d.length && !Flat(window) then LatestIsHigh(window)
    else ShownBright(d, first, events[..|events| - 1])
  }

  lemma ObservedBright(d: Decoder, led: LedState, meas: LedMeasurement, blobsKeepId: bool)
    requires led.identifier == Some(d)
    ensures Observe(led, meas, blobsKeepId).lastBright
            == if |led.history| + 1 >= d.length && !Flat(WindowAfter(d, led, meas)) then LatestIsHigh(WindowAfter(d, led, meas))
               else led.lastBright
  {
    FlatIff(WindowAfter(d, led, meas));
  }

  /** Over every life the bright flag is what the last window that was read says about its latest sample. */
  lemma {:induction false} BrightFlagIsShown(d: Decoder, first: LedMeasurement, garbage: uint8, events: seq<LedEvent>)
    ensures Run(Birth(Some(d), first, garbage), events).lastBright == ShownBright(d, first, events)
  {
    var start := Birth(Some(d), first, garbage);
    if events == [] {
      BornDim(d, first, garbage);
    } else {
      var init, e := events[..|events| - 1], events[|events| - 1];
      BrightFlagIsShown(d, first, garbage, init);
      if e.Measured? {
        WindowContinues(d, first, garbage, events);
        ObservedBright(d, Run(start, init), e.meas, e.blobsKeepId);
      }
    }
  }

  /** One sample alone is flat. */
  lemma BornDim(d: Decoder, first: LedMeasurement, garbage: uint8)
    ensures !Birth(Some(d), first, garbage).lastBright
  {
    var blank := LedState(first, [], NO_IDENTIFIER_OR_INSUFFICIENT_DATA, Some(d), false, garbage, false);
    var window := WindowAfter(d, blank, first);
    forall i: nat, j: nat | i < |window| && j < |window| ensures WithinLeast(window, i, j) {
      assert i == j == 0;
    }
    ObservedBright(d, blank, first, false);
  }

  // ----- Which patterns can be read

  /** A window that shows the pattern, one level for each symbol. */
  function Displayed(pat: string): (window: seq<real>)
    ensures |window| == |pat| && forall i :: 0 <= i < |pat| ==> window[i] == if pat[i] == '*' then 1.0 else 0.0
  {
    seq(|pat|, i requires 0 <= i < |pat| => if pat[i] == '*' then 1.0 else 0.0)
  }

  /** A pattern of '*' and '.' with both symbols reads back as itself, or as an earlier pattern that is a rotation of it. */
  lemma PatternReadsBack(d: Decoder, pats: seq<string>, i: nat)
    requires MadeFrom(d, pats) && i < |pats| && '*' in pats[i] && '.' in pats[i]
    requires forall k :: 0 <= k < |pats[i]| ==> pats[i][k] == '*' || pats[i][k] == '.'
    ensures |pats[i]| == d.length
    ensures var id := Decode(d, Displayed(pats[i])); 0 <= id <= i && IsRotation(pats[i], pats[id])
  {
    assert Enabled(pats[i]);
    BitsOfDisplayed(pats[i]);
    assert pats[i] == Rotate(pats[i], 0);
    DecodeFindsLeastRotation(d, pats, Displayed(pats[i]));
    assert Matches(pats, pats[i], i);
  }

  lemma BitsOfDisplayed(pat: string)
    requires '*' in pat && '.' in pat && forall k :: 0 <= k < |pat| ==> pat[k] == '*' || pat[k] == '.'
    ensures Displayed(pat) != [] && Bits(Displayed(pat), Threshold(Displayed(pat))) == pat
  {
    var window := Displayed(pat);
    var p :| 0 <= p < |pat| && pat[p] == '*';
    var q :| 0 <= q < |pat| && pat[q] == '.';
    assert window[p] == 1.0 && window[q] == 0.0;
    assert Brightest(window) == 1.0 && Dimmest(window) == 0.0;
  }

  /** A pattern that is empty or has any other character is never read. */
  lemma OthersNeverRead(d: Decoder, pats: seq<string>, window: seq<real>, i: nat)
    requires MadeFrom(d, pats) && |window| == d.length && i < |pats|
    requires pats[i] == "" || exists k :: 0 <= k < |pats[i]| && pats[i][k] != '*' && pats[i][k] != '.'
    ensures Decode(d, window) != i
  {
    assert !Enabled(pats[i]) by {
      if pats[i] != "" {
        var k :| 0 <= k < |pats[i]| && pats[i][k] != '*' && pats[i][k] != '.';
        assert pats[i][k] in pats[i];
      }
    }
    DecodeFindsLeastRotation(d, pats, window);
  }
}
