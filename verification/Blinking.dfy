/** How lights blink, and what a window of their brightnesses decodes to. */
module Blinking {
  import opened Types
  import opened Rotations
  import opened IdentifierHelpers
  import opened LedIdentifier

  // ----- The blinking of one light

  /** What a light that cycles through a code shows from some point of the code on. */
  function Cycle(code: string, from: nat, n: nat): (bits: string)
    requires code != ""
    ensures |bits| == n && forall i :: 0 <= i < n ==> bits[i] == code[(from + i) % |code|]
  {
    seq(n, i requires 0 <= i < n => code[(from + i) % |code|])
  }

  /** In which of its first n frames the code, started at this phase, is bright. */
  function Shown(code: string, phase: nat, n: nat): (bright: seq<bool>)
    requires code != ""
    ensures |bright| == n && forall f :: 0 <= f < n ==> bright[f] == (code[(phase + f) % |code|] == '*')
  {
    seq(n, f requires 0 <= f < n => code[(phase + f) % |code|] == '*')
  }

  /** Frames that share a window of this length. */
  predicate Near(f: nat, g: nat, length: nat) {
    f < g + length && g < f + length
  }

  /** A bright and a dim sample are more than the least spread apart. */
  predicate Spaced(bright: seq<bool>, b: seq<real>, f: nat, g: nat)
    requires |bright| == |b| && f < |b| && g < |b|
  {
    bright[f] && !bright[g] ==> b[f] - b[g] > MIN_BRIGHTNESS_DIFF
  }

  /** The midpoint of a bright and a dim sample tells which kind a third one is. */
  predicate Separated(bright: seq<bool>, b: seq<real>, f: nat, g: nat, h: nat)
    requires |bright| == |b| && f < |b| && g < |b| && h < |b|
  {
    bright[f] && !bright[g] ==> (bright[h] <==> b[h] >= (b[g] + b[f]) / 2.0)
  }

  /** The brightnesses b, one per frame, are those of a light that is bright in these frames. Only samples
      in one window are compared; the level may drift from window to window. */
  ghost predicate Follows(bright: seq<bool>, b: seq<real>, length: nat) {
    && |bright| == |b|
    && (forall f: nat, g: nat {:trigger Spaced(bright, b, f, g)} ::
          f < |b| && g < |b| && Near(f, g, length) ==> Spaced(bright, b, f, g))
    && (forall f: nat, g: nat, h: nat {:trigger Separated(bright, b, f, g, h)} ::
          f < |b| && g < |b| && h < |b| && Near(f, g, length) && Near(f, h, length) && Near(g, h, length) ==>
            Separated(bright, b, f, g, h))
  }

  predicate Even(b: seq<real>, f: nat, g: nat)
    requires f < |b| && g < |b|
  {
    b[f] - b[g] <= MIN_BRIGHTNESS_DIFF
  }

  /** No two samples in one window are further apart than the least spread. */
  ghost predicate StaysEven(b: seq<real>, length: nat) {
    forall f: nat, g: nat {:trigger Even(b, f, g)} :: f < |b| && g < |b| && Near(f, g, length) ==> Even(b, f, g)
  }

  /** In a window with samples of both kinds the brightest is bright and the dimmest dim. */
  lemma ExtremaShowBits(bright: seq<bool>, b: seq<real>, start: nat, end: nat, p: nat, q: nat) returns (f: nat, g: nat)
    requires start <= p < end <= |b| && start <= q < end
    requires Follows(bright, b, end - start) && bright[p] && !bright[q]
    ensures start <= f < end && bright[f] && b[f] == Brightest(b[start..end])
    ensures start <= g < end && !bright[g] && b[g] == Dimmest(b[start..end])
    ensures b[f] - b[g] > MIN_BRIGHTNESS_DIFF
  {
    f, g := WindowExtrema(b, start, b[start..end], p, q);
    assert Spaced(bright, b, p, f) && Spaced(bright, b, g, q);
    assert Spaced(bright, b, f, g);
  }

  lemma WindowExtrema(b: seq<real>, start: nat, window: seq<real>, p: nat, q: nat) returns (f: nat, g: nat)
    requires start <= p < start + |window| <= |b| && start <= q < start + |window|
    requires forall k :: 0 <= k < |window| ==> window[k] == b[start + k]
    ensures start <= f < start + |window| && b[f] == Brightest(window) && b[p] <= b[f]
    ensures start <= g < start + |window| && b[g] == Dimmest(window) && b[g] <= b[q]
  {
    var i, j := ExtremaPlaces(window);
    f, g := start + i, start + j;
    assert window[p - start] == b[p] && window[q - start] == b[q];
  }

  /** Thresholding such a window recovers which samples are bright. */
  lemma WindowShowsBits(bright: seq<bool>, b: seq<real>, start: nat, end: nat, p: nat, q: nat) returns (bits: string)
    requires start <= p < end <= |b| && start <= q < end
    requires Follows(bright, b, end - start) && bright[p] && !bright[q]
    ensures Spread(b[start..end]) > MIN_BRIGHTNESS_DIFF
    ensures bits == Bits(b[start..end], Threshold(b[start..end]))
    ensures |bits| == end - start && forall i :: 0 <= i < end - start ==> bits[i] == if bright[start + i] then '*' else '.'
  {
    var f, g := ExtremaShowBits(bright, b, start, end, p, q);
    bits := BitsOfSlice(b, start, end, (b[g] + b[f]) / 2.0);
    SamplesTold(bright, b, start, end, f, g, bits);
  }

  lemma BitsOfSlice(b: seq<real>, start: nat, end: nat, threshold: real) returns (bits: string)
    requires start <= end <= |b|
    ensures bits == Bits(b[start..end], threshold) && |bits| == end - start
    ensures forall i :: 0 <= i < end - start ==> bits[i] == if b[start + i] >= threshold then '*' else '.'
  {
    bits := Bits(b[start..end], threshold);
  }

  lemma SamplesTold(bright: seq<bool>, b: seq<real>, start: nat, end: nat, f: nat, g: nat, bits: string)
    requires start <= f < end <= |b| && start <= g < end && Follows(bright, b, end - start) && bright[f] && !bright[g]
    requires |bits| == end - start
    requires forall i :: 0 <= i < |bits| ==> bits[i] == if b[start + i] >= (b[g] + b[f]) / 2.0 then '*' else '.'
    ensures forall i :: 0 <= i < |bits| ==> bits[i] == if bright[start + i] then '*' else '.'
  {
    forall i | 0 <= i < |bits| ensures bits[i] == if bright[start + i] then '*' else '.' {
      SampleTold(bright, b, end - start, f, g, start + i);
    }
  }

  lemma SampleTold(bright: seq<bool>, b: seq<real>, length: nat, f: nat, g: nat, h: nat)
    requires Follows(bright, b, length) && f < |b| && g < |b| && h < |b| && bright[f] && !bright[g]
    requires Near(f, g, length) && Near(f, h, length) && Near(g, h, length)
    ensures bright[h] <==> b[h] >= (b[g] + b[f]) / 2.0
  {
    assert Separated(bright, b, f, g, h);
  }

  predicate TwoSymbols(code: string) {
    forall c :: c in code ==> c == '*' || c == '.'
  }

  predicate ShowsBoth(bits: string) {
    '*' in bits && '.' in bits
  }

  /** A window in which the code shows both symbols thresholds to what it shows. */
  lemma WindowShowsCode(code: string, phase: nat, b: seq<real>, start: nat, end: nat)
    requires code != "" && TwoSymbols(code) && start <= end <= |b|
    requires Follows(Shown(code, phase, |b|), b, end - start) && ShowsBoth(Cycle(code, phase + start, end - start))
    ensures start < end && Spread(b[start..end]) > MIN_BRIGHTNESS_DIFF
    ensures Bits(b[start..end], Threshold(b[start..end])) == Cycle(code, phase + start, end - start)
  {
    var p, q := SymbolsInWindow(code, phase, |b|, start, end);
    var bright := Shown(code, phase, |b|);
    var bits := WindowShowsBits(bright, b, start, end, p, q);
    BitsAreShown(code, phase, bright, start, end, bits);
  }

  lemma SymbolsInWindow(code: string, phase: nat, n: nat, start: nat, end: nat) returns (p: nat, q: nat)
    requires code != "" && TwoSymbols(code) && start <= end <= n && ShowsBoth(Cycle(code, phase + start, end - start))
    ensures start <= p < end && Shown(code, phase, n)[p]
    ensures start <= q < end && !Shown(code, phase, n)[q]
  {
    var shown := Cycle(code, phase + start, end - start);
    var i := PlaceOf(shown, '*');
    var j := PlaceOf(shown, '.');
    BrightWhenShown(code, phase, n, start, end, i);
    BrightWhenShown(code, phase, n, start, end, j);
    p, q := start + i, start + j;
  }

  lemma PlaceOf(s: string, c: char) returns (i: nat)
    requires c in s
    ensures i < |s| && s[i] == c
  {
    i :| 0 <= i < |s| && s[i] == c;
  }

  lemma BitsAreShown(code: string, phase: nat, bright: seq<bool>, start: nat, end: nat, bits: string)
    requires code != "" && TwoSymbols(code) && bright == Shown(code, phase, |bright|)
    requires start <= end <= |bright| && |bits| == end - start
    requires forall i :: 0 <= i < |bits| ==> bits[i] == if bright[start + i] then '*' else '.'
    ensures bits == Cycle(code, phase + start, end - start)
  {
    forall i | 0 <= i < |bits| ensures bits[i] == Cycle(code, phase + start, end - start)[i] {
      BrightWhenShown(code, phase, |bright|, start, end, i);
    }
  }

  lemma BrightWhenShown(code: string, phase: nat, n: nat, start: nat, end: nat, i: nat)
    requires code != "" && TwoSymbols(code) && start + i < end <= n
    ensures Cycle(code, phase + start, end - start)[i] == if Shown(code, phase, n)[start + i] then '*' else '.'
  {
    assert phase + start + i == phase + (start + i);
    assert code[(phase + (start + i)) % |code|] in code;
  }

  // ----- Codes and pattern tables

  /** The pattern blinks, and no other enabled pattern is a rotation of it. */
  ghost predicate Unmistakable(pats: seq<string>, id: nat) {
    && Blinks(pats, id)
    && forall j :: 0 <= j < |pats| && j != id && Enabled(pats[j]) ==> !IsRotation(pats[id], pats[j])
  }

  /** Whatever this many frames in a row show of the code, it is both symbols, but no rotation of an enabled pattern. */
  ghost predicate Alien(pats: seq<string>, length: nat, code: string) {
    && code != "" && TwoSymbols(code)
    && forall from: nat :: AlienShows(pats, Cycle(code, from, length))
  }

  ghost predicate AlienShows(pats: seq<string>, bits: string) {
    ShowsBoth(bits) && forall j: nat :: !Matches(pats, bits, j)
  }

  lemma CycleIsRotation(code: string, from: nat)
    requires code != ""
    ensures IsRotation(Cycle(code, from, |code|), code)
  {
    PeriodIsRotation(Cycle(code, from, |code|), code, from);
  }

  lemma CycleShowsBoth(code: string, from: nat)
    requires ShowsBoth(code)
    ensures ShowsBoth(Cycle(code, from, |code|))
  {
    CycleIsRotation(code, from);
    RotationKeepsCharacters(Cycle(code, from, |code|), code, '*');
    RotationKeepsCharacters(Cycle(code, from, |code|), code, '.');
  }

  /** A blinking code as long as the patterns is alien to them if and only if it is a rotation of none. */
  lemma AlienIffNoRotation(pats: seq<string>, code: string)
    requires code != "" && TwoSymbols(code) && ShowsBoth(code)
    ensures Alien(pats, |code|, code) <==> forall j: nat :: !Matches(pats, code, j)
  {
    WholeCycle(code);
    if Alien(pats, |code|, code) {
      assert AlienShows(pats, Cycle(code, 0, |code|));
    }
    if forall j: nat :: !Matches(pats, code, j) {
      forall from: nat ensures AlienShows(pats, Cycle(code, from, |code|)) {
        CycleIsAlien(pats, code, from);
      }
    }
  }

  lemma WholeCycle(code: string)
    requires code != ""
    ensures Cycle(code, 0, |code|) == code
  {
  }

  lemma CycleIsAlien(pats: seq<string>, code: string, from: nat)
    requires code != "" && ShowsBoth(code) && forall j: nat :: !Matches(pats, code, j)
    ensures AlienShows(pats, Cycle(code, from, |code|))
  {
    CycleShowsBoth(code, from);
    forall j: nat ensures !Matches(pats, Cycle(code, from, |code|), j) {
      CycleMatchesNoOther(pats, code, from, j);
    }
  }

  lemma CycleMatchesNoOther(pats: seq<string>, code: string, from: nat, j: nat)
    requires code != "" && !Matches(pats, code, j)
    ensures !Matches(pats, Cycle(code, from, |code|), j)
  {
    CycleIsRotation(code, from);
    if Matches(pats, Cycle(code, from, |code|), j) {
      RotationSymmetric(Cycle(code, from, |code|), code);
      RotationTransitive(code, Cycle(code, from, |code|), pats[j]);
    }
  }

  lemma EnabledLength(d: Identifier, pats: seq<string>, id: nat)
    requires MadeFrom(d, pats) && Blinks(pats, id)
    ensures |pats[id]| == d.length && TwoSymbols(pats[id]) && ShowsBoth(pats[id])
  {
  }

  // ----- Lights in view

  /** A light as one sensor knows it: a beacon that blinks a pattern of its table, something else
      that blinks, something that does not, or something unpredictable. */
  datatype Light =
    | Beacon(id: nat, phase: nat)
    | Foreign(code: string, phase: nat)
    | Steady
    | Unknown
  {
    /** What a full window of its samples is read as. */
    function Reads(): int
      requires !Unknown?
    {
      match this
      case Beacon(id, _) => id
      case Foreign(_, _) => NO_PATTERN_RECOGNIZED
      case Steady => INSUFFICIENT_EXTREMA_DIFFERENCE
    }
  }

  /** The light's brightnesses, one per frame, are as its kind says; nothing is known about an unknown one. */
  ghost predicate Behaves(light: Light, pats: seq<string>, length: nat, b: seq<real>) {
    match light
    case Beacon(id, phase) => Unmistakable(pats, id) && Follows(Shown(pats[id], phase, |b|), b, length)
    case Foreign(code, phase) => Alien(pats, length, code) && Follows(Shown(code, phase, |b|), b, length)
    case Steady => StaysEven(b, length)
    case Unknown => true
  }

  /** What `getId` makes of a full window when there is no earlier ID. */
  ghost predicate ReadsAs(d: Identifier, window: seq<real>, id: int) {
    window != [] && if Spread(window) <= MIN_BRIGHTNESS_DIFF then id == INSUFFICIENT_EXTREMA_DIFFERENCE else Decode(d, window) == id
  }

  lemma PeriodShowsBoth(code: string, from: nat, n: nat)
    requires ShowsBoth(code) && n == |code|
    ensures ShowsBoth(Cycle(code, from, n)) && IsRotation(Cycle(code, from, n), code)
  {
    CycleShowsBoth(code, from);
    CycleIsRotation(code, from);
  }

  /** A full window in which a code shows both symbols is read as what the search makes of the code. */
  lemma CodeReads(d: Identifier, code: string, phase: nat, b: seq<real>, start: nat, end: nat, id: int)
    requires code != "" && TwoSymbols(code) && end == start + d.length <= |b|
    requires Follows(Shown(code, phase, |b|), b, d.length) && ShowsBoth(Cycle(code, phase + start, d.length))
    requires Search(d.patterns, Cycle(code, phase + start, d.length), 0) == id
    ensures ReadsAs(d, b[start..end], id)
  {
    WindowShowsCode(code, phase, b, start, end);
  }

  /** Whatever one period shows of an unmistakable code is found as that code. */
  lemma CycleFound(d: Identifier, pats: seq<string>, id: nat, from: nat)
    requires MadeFrom(d, pats) && Unmistakable(pats, id)
    ensures ShowsBoth(Cycle(pats[id], from, d.length)) && Search(d.patterns, Cycle(pats[id], from, d.length), 0) == id
  {
    EnabledLength(d, pats, id);
    PeriodShowsBoth(pats[id], from, d.length);
    SearchFindsOwn(d, pats, Cycle(pats[id], from, d.length), id);
  }

  /** A full window of a beacon's samples is read as its ID. */
  lemma BeaconReads(d: Identifier, pats: seq<string>, id: nat, phase: nat, b: seq<real>, start: nat, end: nat)
    requires MadeFrom(d, pats) && Behaves(Beacon(id, phase), pats, d.length, b) && end == start + d.length <= |b|
    ensures ReadsAs(d, b[start..end], id)
  {
    EnabledLength(d, pats, id);
    CycleFound(d, pats, id, phase + start);
    CodeReads(d, pats[id], phase, b, start, end, id);
  }

  /** A full window of something else that blinks is read as no pattern. */
  lemma ForeignReads(d: Identifier, pats: seq<string>, code: string, phase: nat, b: seq<real>, start: nat, end: nat)
    requires d.length >= 1 && MadeFrom(d, pats) && end == start + d.length <= |b|
    requires Behaves(Foreign(code, phase), pats, d.length, b)
    ensures ReadsAs(d, b[start..end], NO_PATTERN_RECOGNIZED)
  {
    var bits := Cycle(code, phase + start, d.length);
    assert AlienShows(pats, bits);
    SearchFindsLeastRotation(d, pats, bits, 0);
    CodeReads(d, code, phase, b, start, end, NO_PATTERN_RECOGNIZED);
  }

  /** A full window of a light that does not blink is told from a beacon's. */
  lemma SteadyReads(d: Identifier, pats: seq<string>, b: seq<real>, start: nat, end: nat)
    requires d.length >= 1 && end == start + d.length <= |b| && Behaves(Steady, pats, d.length, b)
    ensures ReadsAs(d, b[start..end], INSUFFICIENT_EXTREMA_DIFFERENCE)
  {
    var f, g := WindowExtrema(b, start, b[start..end], start, start);
    assert Even(b, f, g);
  }

  lemma LightReads(d: Identifier, pats: seq<string>, light: Light, b: seq<real>, start: nat, end: nat)
    requires d.length >= 1 && MadeFrom(d, pats) && end == start + d.length <= |b|
    requires !light.Unknown? && Behaves(light, pats, d.length, b)
    ensures ReadsAs(d, b[start..end], light.Reads())
  {
    match light
    case Beacon(id, phase) => BeaconReads(d, pats, id, phase, b, start, end);
    case Foreign(code, phase) => ForeignReads(d, pats, code, phase, b, start, end);
    case Steady => SteadyReads(d, pats, b, start, end);
  }
}
