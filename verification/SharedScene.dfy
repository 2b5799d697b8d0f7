/** Several sensors that look at one scene with beacons of all of them. */
module SharedScene {
  import opened Types
  import opened Rotations
  import opened LedIdentifier
  import opened LedModel
  import opened Matching
  import opened PoseModel
  import opened SensorModel
  import opened SensorRun
  import opened Blinking
  import opened Identification

  /** A light as it is: the beacon of one sensor, a light that does not blink, or something else. */
  datatype Source =
    | Blinker(sensor: nat, id: nat, phase: nat)
    | Still
    | Other

  /** A sensor as it is set up: its pattern table, the identifier made of it, and its new estimator. */
  datatype Setup = Setup(pats: seq<string>, identifier: Decoder, est: EstimatorState)

  ghost predicate Ready(setup: Setup) {
    MadeFrom(setup.identifier, setup.pats) && setup.est.rig.Consistent()
  }

  /** The code blinks, and no sensor can take it for another one of its own. */
  ghost predicate Recognisable(setups: seq<Setup>, sensor: nat, id: nat) {
    && sensor < |setups|
    && Unmistakable(setups[sensor].pats, id)
    && forall t :: 0 <= t < |setups| && t != sensor ==>
         Alien(setups[t].pats, setups[t].identifier.length, setups[sensor].pats[id])
  }

  /** When all codes are equally long, a code is recognisable if and only if it blinks and
      is a rotation of no other enabled pattern in any of the tables. */
  lemma RecognisableIff(setups: seq<Setup>, sensor: nat, id: nat)
    requires forall t :: 0 <= t < |setups| ==> Ready(setups[t])
    requires forall t, u :: 0 <= t < |setups| && 0 <= u < |setups| ==> setups[t].identifier.length == setups[u].identifier.length
    requires sensor < |setups| && id < |setups[sensor].pats|
    ensures Recognisable(setups, sensor, id) <==>
            && Blinks(setups[sensor].pats, id)
            && forall t, j: nat :: 0 <= t < |setups| && (t != sensor || j != id) ==>
                 !Matches(setups[t].pats, setups[sensor].pats[id], j)
  {
    var pats := setups[sensor].pats;
    if Blinks(pats, id) {
      EnabledLength(setups[sensor].identifier, pats, id);
      forall t | 0 <= t < |setups|
        ensures Alien(setups[t].pats, setups[t].identifier.length, pats[id]) <==>
                forall j: nat :: !Matches(setups[t].pats, pats[id], j)
      {
        AlienIffNoRotation(setups[t].pats, pats[id]);
      }
      UnmistakableIff(pats, id);
    }
  }

  lemma UnmistakableIff(pats: seq<string>, id: nat)
    requires Blinks(pats, id)
    ensures Unmistakable(pats, id) <==> forall j: nat :: j != id ==> !Matches(pats, pats[id], j)
  {
    if forall j: nat :: j != id ==> !Matches(pats, pats[id], j) {
      forall j | 0 <= j < |pats| && j != id && Enabled(pats[j]) ensures !IsRotation(pats[id], pats[j]) {
        assert !Matches(pats, pats[id], j);
      }
    }
  }

  /** The source as this sensor knows it. */
  function KnownAs(setups: seq<Setup>, source: Source, sensor: nat): Light
    requires source.Blinker? ==> source.sensor < |setups| && source.id < |setups[source.sensor].pats|
  {
    match source
    case Blinker(s, id, phase) => if s == sensor then Beacon(id, phase) else Foreign(setups[s].pats[id], phase)
    case Still => Steady
    case Other => Unknown
  }

  ghost predicate AllRecognisable(setups: seq<Setup>, sources: seq<Source>) {
    forall i :: 0 <= i < |sources| && sources[i].Blinker? ==> Recognisable(setups, sources[i].sensor, sources[i].id)
  }

  /** The scene as this sensor knows it. */
  function SceneFor(setups: seq<Setup>, sources: seq<Source>, at: seq<seq<nat>>, sensor: nat): Scene
    requires AllRecognisable(setups, sources) && sensor < |setups|
  {
    Scene(setups[sensor].pats,
          seq(|sources|, i requires 0 <= i < |sources| =>
            assert sources[i].Blinker? ==> Recognisable(setups, sources[i].sensor, sources[i].id);
            KnownAs(setups, sources[i], sensor)),
          at)
  }

  /** A brightness course that fits the source, in windows of this length. */
  ghost predicate Plausible(setups: seq<Setup>, source: Source, length: nat, b: seq<real>) {
    match source
    case Blinker(s, id, phase) =>
      s < |setups| && id < |setups[s].pats| && setups[s].pats[id] != "" && Follows(Shown(setups[s].pats[id], phase, |b|), b, length)
    case Still => StaysEven(b, length)
    case Other => true
  }

  /** Each shot shows each source as one blob and nothing else. */
  ghost predicate Shows(sources: seq<Source>, at: seq<seq<nat>>, shots: seq<Shot>) {
    && |at| == |shots|
    && forall f :: 0 <= f < |shots| ==>
         && |at[f]| == |shots[f].blobs| == |sources|
         && forall i :: 0 <= i < |sources| ==> at[f][i] < |shots[f].blobs|
  }

  function SourceBrightnesses(sources: seq<Source>, at: seq<seq<nat>>, shots: seq<Shot>, i: nat): (b: seq<real>)
    requires Shows(sources, at, shots) && i < |sources|
    ensures |b| == |shots|
  {
    seq(|shots|, f requires 0 <= f < |shots| => shots[f].blobs[at[f][i]].brightness)
  }

  function SourcesSeen(sources: seq<Source>, at: seq<seq<nat>>, shots: seq<Shot>, f: nat): (r: seq<LedMeasurement>)
    requires Shows(sources, at, shots) && f < |shots|
    ensures |r| == |sources|
  {
    seq(|sources|, i requires 0 <= i < |sources| => shots[f].blobs[at[f][i]])
  }

  /** All codes are recognisable, all sources are listed as the first shot shows them and blink as they should, and
      every later blob of a source is in reach of, and strictly nearest to, the one before. */
  ghost predicate AllClear(params: Params, setups: seq<Setup>, sources: seq<Source>, at: seq<seq<nat>>, shots: seq<Shot>) {
    && (forall t :: 0 <= t < |setups| ==> Ready(setups[t]))
    && AllRecognisable(setups, sources) && Shows(sources, at, shots) && ForAll(shots, |setups|)
    && (forall t, i :: 0 <= t < |setups| && 0 <= i < |sources| ==>
          Plausible(setups, sources[i], setups[t].identifier.length, SourceBrightnesses(sources, at, shots, i)))
    && (shots != [] ==> forall i :: 0 <= i < |sources| ==> at[0][i] == i)
    && (forall f :: 0 < f < |shots| ==>
          TrueAssignment(params, SourcesSeen(sources, at, shots, f - 1), shots[f].blobs, at[f]))
  }

  lemma SceneIsWellFormed(setups: seq<Setup>, sources: seq<Source>, at: seq<seq<nat>>, shots: seq<Shot>, t: nat)
    requires AllRecognisable(setups, sources) && Shows(sources, at, shots) && ForAll(shots, |setups|) && t < |setups|
    ensures var scene, frames := SceneFor(setups, sources, at, t), FramesOf(shots, t);
      && WellFormed(scene, frames)
      && (forall f :: 0 <= f < |shots| ==> Seen(scene, frames, f) == SourcesSeen(sources, at, shots, f))
      && (forall i :: 0 <= i < |sources| ==> Brightnesses(scene, frames, i) == SourceBrightnesses(sources, at, shots, i))
  {
  }

  lemma SourceBehaves(setups: seq<Setup>, source: Source, t: nat, b: seq<real>)
    requires t < |setups| && (source.Blinker? ==> Recognisable(setups, source.sensor, source.id))
    requires Plausible(setups, source, setups[t].identifier.length, b)
    ensures Behaves(KnownAs(setups, source, t), setups[t].pats, setups[t].identifier.length, b)
  {
  }

  /** What is clear to all is clear to each. */
  lemma ClearForEach(params: Params, setups: seq<Setup>, sources: seq<Source>, at: seq<seq<nat>>, shots: seq<Shot>, t: nat)
    requires AllClear(params, setups, sources, at, shots) && t < |setups|
    ensures Clear(params, setups[t].identifier.length, SceneFor(setups, sources, at, t), FramesOf(shots, t))
  {
    SceneIsWellFormed(setups, sources, at, shots, t);
    var scene, frames, length := SceneFor(setups, sources, at, t), FramesOf(shots, t), setups[t].identifier.length;
    forall i | 0 <= i < |sources| ensures ClearLight(scene, length, frames, i) {
      SourceBehaves(setups, sources[i], t, SourceBrightnesses(sources, at, shots, i));
    }
  }

  function Identifiers(setups: seq<Setup>): (r: seq<Option<Decoder>>)
    ensures |r| == |setups|
  {
    seq(|setups|, t requires 0 <= t < |setups| => Some(setups[t].identifier))
  }

  function Initial(setups: seq<Setup>): (r: seq<SensorState>)
    ensures |r| == |setups|
  {
    seq(|setups|, t requires 0 <= t < |setups| => SensorState([], setups[t].est))
  }

  /** What one sensor makes of the shared scene, run on its own. */
  lemma OneIdentifiesItsOwn(params: Params, setups: seq<Setup>, sources: seq<Source>, at: seq<seq<nat>>, shots: seq<Shot>, t: nat)
    requires AllClear(params, setups, sources, at, shots) && t < |setups| && shots != []
    ensures setups[t].est.rig.Consistent()
    ensures var setup, frames := setups[t], FramesOf(shots, t);
      var leds := Run(params, Some(setup.identifier), setup.est, frames).leds;
      && |leds| == |sources|
      && Latest(leds) == SourcesSeen(sources, at, shots, |shots| - 1)
      && forall i :: 0 <= i < |leds| ==>
           OwnOnly(setup.identifier, sources[i], t, Age(params, Some(setup.identifier), setup.est, frames, i), leds[i])
  {
    assert Ready(setups[t]);
    var setup, frames, scene := setups[t], FramesOf(shots, t), SceneFor(setups, sources, at, t);
    ClearForEach(params, setups, sources, at, shots, t);
    SceneIsWellFormed(setups, sources, at, shots, t);
    IdentifiesBeacons(params, setup.identifier, setup.est, scene, frames);
    var leds := Run(params, Some(setup.identifier), setup.est, frames).leds;
    forall i | 0 <= i < |leds|
      ensures OwnOnly(setup.identifier, sources[i], t, Age(params, Some(setup.identifier), setup.est, frames, i), leds[i])
    {
      assert sources[i].Blinker? ==> Recognisable(setups, sources[i].sensor, sources[i].id);
      CarriesOwnOnly(setups, sources[i], t, Age(params, Some(setup.identifier), setup.est, frames, i), leds[i]);
    }
  }

  lemma CarriesOwnOnly(setups: seq<Setup>, source: Source, t: nat, age: nat, led: LedState)
    requires t < |setups| && (source.Blinker? ==> Recognisable(setups, source.sensor, source.id))
    requires Carries(setups[t].identifier, KnownAs(setups, source, t), age, led.id)
    ensures OwnOnly(setups[t].identifier, source, t, age, led)
  {
  }

  /** An LED of sensor t, after this many samples of the source: the ID of its own beacon
      with a full window, and no ID for a beacon of another sensor or a light that does not blink. */
  ghost predicate OwnOnly(d: Decoder, source: Source, t: nat, age: nat, led: LedState) {
    match source
    case Blinker(s, id, _) =>
      if s == t then led.id == if age >= d.length then id else NO_IDENTIFIER_OR_INSUFFICIENT_DATA else !Identified(led)
    case Still => !Identified(led)
    case Other => true
  }

  /** Each of several sensors that see the beacons of all of them identifies exactly its own. After every frame
      a sensor has one LED per light; the LED of its own beacon carries that beacon's ID just when it has had a full
      window of samples, and no beacon of another sensor and no light that does not blink ever gets an ID. */
  lemma EachIdentifiesItsOwn(params: Params, setups: seq<Setup>, sources: seq<Source>, at: seq<seq<nat>>, shots: seq<Shot>, t: nat)
    requires AllClear(params, setups, sources, at, shots) && t < |setups| && shots != []
    ensures AllConsistent(Initial(setups))
    ensures var setup, leds := setups[t], RunAll(params, Identifiers(setups), Initial(setups), shots)[t].leds;
      && |leds| == |sources|
      && Latest(leds) == SourcesSeen(sources, at, shots, |shots| - 1)
      && forall i :: 0 <= i < |leds| ==>
           OwnOnly(setup.identifier, sources[i], t,
                   Age(params, Some(setup.identifier), setup.est, FramesOf(shots, t), i), leds[i])
  {
    OneIdentifiesItsOwn(params, setups, sources, at, shots, t);
    InitialConsistent(setups);
    SensorsAreIndependent(params, Identifiers(setups), Initial(setups), shots, t);
  }

  lemma InitialConsistent(setups: seq<Setup>)
    requires forall t :: 0 <= t < |setups| ==> Ready(setups[t])
    ensures AllConsistent(Initial(setups))
  {
    forall t | 0 <= t < |setups| ensures setups[t].est.rig.Consistent() {
      assert Ready(setups[t]);
    }
  }
}
