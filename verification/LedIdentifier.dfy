/** The blink-code identifier: its table of wrapped patterns and the decoding of a window. */
module LedIdentifier {
  import opened Types
  import opened Rotations
  import opened IdentifierHelpers

  const NO_IDENTIFIER_OR_INSUFFICIENT_DATA: int := -1
  const INSUFFICIENT_EXTREMA_DIFFERENCE: int := -2
  const NO_PATTERN_RECOGNIZED: int := -3

  const MIN_BRIGHTNESS_DIFF: real := 0.3

  /** The identifier object; it never changes once constructed. A disabled pattern is empty. */
  datatype Identifier = Identifier(length: nat, patterns: seq<string>)

  /** A pattern is enabled when it is not empty and holds only '*' and '.'. */
  predicate Enabled(pat: string) {
    pat != "" && forall c :: c in pat ==> c == '*' || c == '.'
  }

  function WrapOrDisable(pat: string): string {
    if Enabled(pat) then Wrap(pat) else ""
  }

  /** `identifier` is the object that the constructor makes of the pattern strings `pats`. */
  ghost predicate MadeFrom(identifier: Identifier, pats: seq<string>) {
    if exists i :: 0 <= i < |pats| && Enabled(pats[i]) then
      && (forall i :: 0 <= i < |pats| && Enabled(pats[i]) ==> |pats[i]| == identifier.length)
      && |identifier.patterns| == |pats|
      && (forall i :: 0 <= i < |pats| ==> identifier.patterns[i] == WrapOrDisable(pats[i]))
    else
      identifier == Identifier(0, [])
  }

  /** The constructor; its exception is the Error result. It succeeds just when
      all enabled patterns have one length. */
  method Create(pats: seq<string>) returns (r: Result<Identifier>)
    ensures r.Ok? <==>
            forall i, j :: 0 <= i < |pats| && 0 <= j < |pats| && Enabled(pats[i]) && Enabled(pats[j])
              ==> |pats[i]| == |pats[j]|
    ensures r.Ok? ==> MadeFrom(r.value, pats)
  {
    var length := FirstLength(pats);
    if length == 0 {
      return Ok(Identifier(0, []));
    }
    var patterns := [];
    for n := 0 to |pats|
      invariant |patterns| == n
      invariant forall i :: 0 <= i < n ==> patterns[i] == WrapOrDisable(pats[i])
      invariant forall i :: 0 <= i < n && Enabled(pats[i]) ==> |pats[i]| == length
    {
      if !Enabled(pats[n]) {
        patterns := patterns + [""];
        continue;
      }
      if |pats[n]| != length {
        return Error;
      }
      patterns := patterns + [Wrap(pats[n])];
    }
    r := Ok(Identifier(length, patterns));
  }

  /** The constructor's first loop: the length of the first enabled pattern, or 0. */
  method FirstLength(pats: seq<string>) returns (length: nat)
    ensures length == 0 ==> forall i :: 0 <= i < |pats| ==> !Enabled(pats[i])
    ensures length > 0 ==> exists i :: 0 <= i < |pats| && Enabled(pats[i]) && |pats[i]| == length
                             && forall j :: 0 <= j < i ==> !Enabled(pats[j])
  {
    for n := 0 to |pats|
      invariant forall i :: 0 <= i < n ==> !Enabled(pats[i])
    {
      if Enabled(pats[n]) {
        return |pats[n]|;
      }
    }
    return 0;
  }

  /** An identifier has no length if and only if none of its patterns is enabled; whatever it is then
      given, it retains no sample to take the extrema of. */
  lemma NoLengthIffNoPattern(identifier: Identifier, pats: seq<string>, brightnesses: seq<real>)
    requires MadeFrom(identifier, pats)
    ensures identifier.length == 0 <==> forall i :: 0 <= i < |pats| ==> !Enabled(pats[i])
    ensures LastN(brightnesses, identifier.length) == [] <==> brightnesses == [] || identifier.length == 0
  {
    if i :| 0 <= i < |pats| && Enabled(pats[i]) {
      assert |pats[i]| == identifier.length;
    }
  }

  /** Such an identifier can be constructed, from a table of disabled patterns. */
  lemma DisabledTable()
    ensures MadeFrom(Identifier(0, []), [""])
  {
  }

  /** The least index, from i on, of a pattern in which the bits occur. */
  function Search(patterns: seq<string>, bits: string, i: nat): (id: int)
    requires i <= |patterns|
    ensures id == NO_PATTERN_RECOGNIZED || i <= id < |patterns|
    decreases |patterns| - i
  {
    if i == |patterns| then NO_PATTERN_RECOGNIZED
    else if patterns[i] != "" && Occurs(bits, patterns[i]) then i
    else Search(patterns, bits, i + 1)
  }

  /** What a call of `getId` leaves behind: its result, the retained list and the bright flag. */
  datatype Reading = Reading(id: int, brightnesses: seq<real>, lastBright: bool)

  function Decode(identifier: Identifier, window: seq<real>): int
    requires window != []
  {
    Search(identifier.patterns, Bits(window, Threshold(window)), 0)
  }

  function Read(identifier: Identifier, currentId: int, brightnesses: seq<real>,
                lastBright: bool, blobsKeepId: bool): Reading
    requires identifier.length >= 1
  {
    if |brightnesses| < identifier.length then
      Reading(NO_IDENTIFIER_OR_INSUFFICIENT_DATA, brightnesses, lastBright)
    else
      ReadWindow(identifier, currentId, LastN(brightnesses, identifier.length), lastBright, blobsKeepId)
  }

  function ReadWindow(identifier: Identifier, currentId: int, window: seq<real>,
                      lastBright: bool, blobsKeepId: bool): Reading
    requires window != []
  {
    if Spread(window) <= MIN_BRIGHTNESS_DIFF then
      Reading(INSUFFICIENT_EXTREMA_DIFFERENCE, window, lastBright)
    else
      var id := if blobsKeepId && currentId >= 0 then currentId else Decode(identifier, window);
      Reading(id, window, LastIsBright(window))
  }

  predicate LastIsBright(window: seq<real>)
    requires window != []
  {
    window[|window| - 1] >= Threshold(window)
  }

  /** `getId`; the two in-out parameters of the source come back as results. A list of
      no length has no extrema, so the identifier must have an enabled pattern. */
  method GetId(identifier: Identifier, currentId: int, brightnesses: seq<real>,
               lastBright: bool, blobsKeepId: bool) returns (r: Reading)
    requires identifier.length >= 1
    ensures r == Read(identifier, currentId, brightnesses, lastBright, blobsKeepId)
  {
    if |brightnesses| < identifier.length {
      return Reading(NO_IDENTIFIER_OR_INSUFFICIENT_DATA, brightnesses, lastBright);
    }
    var window := TruncateBrightnessListTo(brightnesses, identifier.length);
    var minVal, maxVal := Dimmest(window), Brightest(window);
    if maxVal - minVal <= MIN_BRIGHTNESS_DIFF {
      return Reading(INSUFFICIENT_EXTREMA_DIFFERENCE, window, lastBright);
    }
    var threshold := (minVal + maxVal) / 2.0;
    assert threshold == Threshold(window);
    var bright := window[|window| - 1] >= threshold;
    assert bright == LastIsBright(window);
    if blobsKeepId && currentId >= 0 {
      return Reading(currentId, window, bright);
    }
    var bits := Bits(window, threshold);
    var id := FindPattern(identifier.patterns, bits);
    assert id == Decode(identifier, window);
    r := Reading(id, window, bright);
  }

  /** The search loop of `getId`. */
  method FindPattern(patterns: seq<string>, bits: string) returns (id: int)
    ensures id == Search(patterns, bits, 0)
  {
    for i := 0 to |patterns|
      invariant Search(patterns, bits, 0) == Search(patterns, bits, i)
    {
      if patterns[i] == "" {
        continue;
      }
      if Occurs(bits, patterns[i]) {
        return i;
      }
    }
    return NO_PATTERN_RECOGNIZED;
  }

  /** Window `bits` matches entry i of the pattern list. */
  ghost predicate Matches(pats: seq<string>, bits: string, i: nat) {
    i < |pats| && Enabled(pats[i]) && IsRotation(bits, pats[i])
  }

  /** A search started at i finds the least index from i on whose enabled pattern is
      a rotation of the bits, and fails if and only if there is none. */
  lemma {:induction false} SearchFindsLeastRotation(identifier: Identifier, pats: seq<string>, bits: string, i: nat)
    requires identifier.length >= 1 && MadeFrom(identifier, pats) && |bits| == identifier.length
    requires i <= |identifier.patterns|
    ensures var id := Search(identifier.patterns, bits, i);
      if id < 0 then id == NO_PATTERN_RECOGNIZED && forall j :: i <= j ==> !Matches(pats, bits, j)
      else i <= id && Matches(pats, bits, id) && forall j :: i <= j < id ==> !Matches(pats, bits, j)
    decreases |pats| - i
  {
    if i < |pats| {
      OccursIffMatches(identifier, pats, bits, i);
      SearchFindsLeastRotation(identifier, pats, bits, i + 1);
    }
  }

  lemma OccursIffMatches(identifier: Identifier, pats: seq<string>, bits: string, i: nat)
    requires identifier.length >= 1 && MadeFrom(identifier, pats) && |bits| == identifier.length
    requires i < |identifier.patterns|
    ensures identifier.patterns[i] != "" && Occurs(bits, identifier.patterns[i]) <==> Matches(pats, bits, i)
  {
    if Enabled(pats[i]) {
      SubstringIffRotation(bits, pats[i]);
    }
  }

  lemma DecodeFindsLeastRotation(identifier: Identifier, pats: seq<string>, window: seq<real>)
    requires identifier.length >= 1 && MadeFrom(identifier, pats) && |window| == identifier.length
    ensures var id, bits := Decode(identifier, window), Bits(window, Threshold(window));
      if id < 0 then id == NO_PATTERN_RECOGNIZED && forall j: nat :: !Matches(pats, bits, j)
      else Matches(pats, bits, id) && forall j: nat :: j < id ==> !Matches(pats, bits, j)
  {
    SearchFindsLeastRotation(identifier, pats, Bits(window, Threshold(window)), 0);
  }

  /** A window with enough spread that decodes to an ID names an enabled pattern
      that blinks: one holding both symbols. */
  lemma DecodedPatternBlinks(identifier: Identifier, pats: seq<string>, window: seq<real>)
    requires identifier.length >= 1 && MadeFrom(identifier, pats) && |window| == identifier.length
    requires Spread(window) > MIN_BRIGHTNESS_DIFF && Decode(identifier, window) >= 0
    ensures Blinks(pats, Decode(identifier, window))
  {
    var id, bits := Decode(identifier, window), Bits(window, Threshold(window));
    DecodeFindsLeastRotation(identifier, pats, window);
    BothSymbols(window);
    RotationKeepsCharacters(bits, pats[id], '*');
    RotationKeepsCharacters(bits, pats[id], '.');
  }

  /** `id` names an enabled pattern that holds both symbols. */
  predicate Blinks(pats: seq<string>, id: int) {
    0 <= id < |pats| && Enabled(pats[id]) && '*' in pats[id] && '.' in pats[id]
  }

  /** Bits that are a rotation of pattern `id` are found as `id` when no other enabled
      pattern is a rotation of that one. */
  lemma SearchFindsOwn(identifier: Identifier, pats: seq<string>, bits: string, id: nat)
    requires identifier.length >= 1 && MadeFrom(identifier, pats) && |bits| == identifier.length
    requires Matches(pats, bits, id)
    requires forall j :: 0 <= j < |pats| && j != id && Enabled(pats[j]) ==> !IsRotation(pats[id], pats[j])
    ensures Search(identifier.patterns, bits, 0) == id
  {
    SearchFindsLeastRotation(identifier, pats, bits, 0);
    var found := Search(identifier.patterns, bits, 0);
    assert found >= 0;
    RotationSymmetric(bits, pats[id]);
    RotationTransitive(pats[id], bits, pats[found]);
  }

  /** A window that thresholds to a rotation of pattern `id` decodes to `id`
      when no other enabled pattern is a rotation of that one. */
  lemma DecodesOwnPattern(identifier: Identifier, pats: seq<string>, window: seq<real>, id: nat)
    requires identifier.length >= 1 && MadeFrom(identifier, pats) && |window| == identifier.length
    requires Matches(pats, Bits(window, Threshold(window)), id)
    requires forall j :: 0 <= j < |pats| && j != id && Enabled(pats[j]) ==> !IsRotation(pats[id], pats[j])
    ensures Decode(identifier, window) == id
  {
    SearchFindsOwn(identifier, pats, Bits(window, Threshold(window)), id);
  }

  /** Decoding does not depend on where in its cycle the code was first seen. */
  lemma DecodeIgnoresPhase(identifier: Identifier, pats: seq<string>, window: seq<real>, k: nat)
    requires identifier.length >= 1 && MadeFrom(identifier, pats)
    requires |window| == identifier.length && k <= |window|
    ensures Decode(identifier, window[k..] + window[..k]) == Decode(identifier, window)
    ensures Spread(window[k..] + window[..k]) == Spread(window)
  {
    var turned := window[k..] + window[..k];
    assert forall x :: x in window <==> x in turned by {
      assert window == window[..k] + window[k..];
    }
    ExtremaOfSameSamples(window, turned);
    BitsOfTurned(window, k, Threshold(window));
    SameRotationsSameDecode(identifier, pats, window, turned);
  }

  lemma BitsOfTurned(window: seq<real>, k: nat, threshold: real)
    requires k <= |window|
    ensures IsRotation(Bits(window[k..] + window[..k], threshold), Bits(window, threshold))
  {
    assert Bits(window[k..] + window[..k], threshold) == Rotate(Bits(window, threshold), k);
  }

  lemma SameRotationsSameDecode(identifier: Identifier, pats: seq<string>, v: seq<real>, w: seq<real>)
    requires identifier.length >= 1 && MadeFrom(identifier, pats)
    requires |v| == identifier.length && |w| == identifier.length
    requires IsRotation(Bits(w, Threshold(w)), Bits(v, Threshold(v)))
    ensures Decode(identifier, v) == Decode(identifier, w)
  {
    var a, b := Bits(v, Threshold(v)), Bits(w, Threshold(w));
    RotationSymmetric(b, a);
    forall j: nat ensures Matches(pats, a, j) <==> Matches(pats, b, j) {
      if Matches(pats, a, j) {
        RotationTransitive(b, a, pats[j]);
      }
      if Matches(pats, b, j) {
        RotationTransitive(a, b, pats[j]);
      }
    }
    DecodeFindsLeastRotation(identifier, pats, v);
    DecodeFindsLeastRotation(identifier, pats, w);
  }

  /** Decoding does not depend on the scale and offset of the brightnesses. The whole reading of a call
      that keeps no earlier ID, because it must not or has none, is the same, as long as both windows
      have enough spread. */
  lemma ReadIgnoresScale(identifier: Identifier, currentId: int, brightnesses: seq<real>, lastBright: bool,
                         blobsKeepId: bool, a: real, c: real)
    requires 1 <= identifier.length <= |brightnesses| && a > 0.0
    requires !blobsKeepId || currentId < 0
    requires Spread(LastN(brightnesses, identifier.length)) > MIN_BRIGHTNESS_DIFF
    requires Spread(Rescale(LastN(brightnesses, identifier.length), a, c)) > MIN_BRIGHTNESS_DIFF
    ensures var r := Read(identifier, currentId, brightnesses, lastBright, blobsKeepId);
      var s := Read(identifier, currentId, Rescale(brightnesses, a, c), lastBright, blobsKeepId);
      s.id == r.id && s.lastBright == r.lastBright
  {
    var window := LastN(brightnesses, identifier.length);
    var bits := Bits(window, Threshold(window));
    LastNOfRescaled(brightnesses, identifier.length, a, c);
    BitsOfRescaled(window, a, c);
    ReadingOfBits(identifier, currentId, window, lastBright, blobsKeepId, bits);
    ReadingOfBits(identifier, currentId, Rescale(window, a, c), lastBright, blobsKeepId, bits);
  }

  /** A reading that keeps no earlier ID depends on the bits alone. */
  lemma ReadingOfBits(identifier: Identifier, currentId: int, window: seq<real>, lastBright: bool, blobsKeepId: bool, bits: string)
    requires window != [] && Spread(window) > MIN_BRIGHTNESS_DIFF && bits == Bits(window, Threshold(window))
    requires !blobsKeepId || currentId < 0
    ensures var r := ReadWindow(identifier, currentId, window, lastBright, blobsKeepId);
      r == Reading(Search(identifier.patterns, bits, 0), window, bits[|bits| - 1] == '*')
  {
    LastBit(window);
  }

  lemma LastNOfRescaled(b: seq<real>, n: nat, a: real, c: real)
    ensures LastN(Rescale(b, a, c), n) == Rescale(LastN(b, n), a, c)
  {
    var rescaled, kept := Rescale(b, a, c), LastN(b, n);
    var skip := |b| - |kept|;
    LastNAt(rescaled, n, skip, LastN(rescaled, n));
    LastNAt(b, n, skip, kept);
    SameElements(LastN(rescaled, n), Rescale(kept, a, c));
  }

  lemma LastNAt(b: seq<real>, n: nat, skip: nat, kept: seq<real>)
    requires kept == LastN(b, n) && skip == if |b| > n then |b| - n else 0
    ensures |kept| == |b| - skip && forall i :: 0 <= i < |kept| ==> kept[i] == b[skip + i]
  {
  }

  lemma SameElements(r: seq<real>, s: seq<real>)
    requires |r| == |s| && forall i :: 0 <= i < |r| ==> r[i] == s[i]
    ensures r == s
  {
  }

  lemma LastBit(window: seq<real>)
    requires window != []
    ensures LastIsBright(window) <==> Bits(window, Threshold(window))[|window| - 1] == '*'
  {
  }
}
