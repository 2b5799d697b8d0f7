/** A light that comes and goes, seen by several sensors. */
module SharedPassage {
  import opened Types
  import opened LedModel
  import opened Matching
  import opened PoseModel
  import opened SensorModel
  import opened SensorRun
  import opened SharedScene
  import opened PassingLight

  lemma FramesOfPrefix(shots: seq<Shot>, t: nat, n: nat)
    requires n <= |shots| && forall m :: 0 <= m < |shots| ==> t < |shots[m].inputs|
    ensures FramesOf(shots[..n], t) == FramesOf(shots, t)[..n]
  {
  }

  /** What one of the sensors is after some of the shots. */
  lemma RunAllPrefix(params: Params, setups: seq<Setup>, shots: seq<Shot>, t: nat, n: nat)
    requires (forall u :: 0 <= u < |setups| ==> Ready(setups[u])) && ForAll(shots, |setups|) && t < |setups| && n <= |shots|
    ensures AllConsistent(Initial(setups)) && setups[t].est.rig.Consistent()
    ensures RunAll(params, Identifiers(setups), Initial(setups), shots[..n])[t]
            == Run(params, Some(setups[t].identifier), setups[t].est, FramesOf(shots, t)[..n])
  {
    InitialConsistent(setups);
    FramesOfPrefix(shots, t, n);
    SensorsAreIndependent(params, Identifiers(setups), Initial(setups), shots[..n], t);
    assert Ready(setups[t]);
  }

  /** The passage of this source, as this sensor sees it. */
  ghost predicate PassageFor(params: Params, setups: seq<Setup>, source: Source, p: Passage, frames: seq<Frame>, t: nat)
    requires t < |setups| && setups[t].est.rig.Consistent() && (source.Blinker? ==> Recognisable(setups, source.sensor, source.id))
  {
    && p.light == KnownAs(setups, source, t) && InView(p, frames)
    && Plausible(setups, source, setups[t].identifier.length, Course(p, frames))
    && Starts(params, setups[t].identifier, setups[t].est, p, frames)
    && Stays(params, setups[t].identifier, setups[t].est, p, frames)
  }

  /** One of the LEDs holds this blob, and carries the source's ID just when it is the sensor's own
      beacon and has been in view this long. */
  ghost predicate SomeOwnOnly(setup: Setup, source: Source, t: nat, age: nat, blob: LedMeasurement, leds: seq<LedState>) {
    exists i :: 0 <= i < |leds| && leds[i].latest == blob && OwnOnly(setup.identifier, source, t, age, leds[i])
  }

  /** While a source is in view every sensor has an LED that holds its blob. The sensor whose beacon it is gives that LED
      the beacon's ID just when the source has been in view for a full window; every other sensor gives it none. */
  lemma EachIdentifiesInPassing(params: Params, setups: seq<Setup>, source: Source, p: Passage, shots: seq<Shot>, t: nat)
    requires (forall u :: 0 <= u < |setups| ==> Ready(setups[u])) && ForAll(shots, |setups|) && t < |setups|
    requires setups[t].est.rig.Consistent() && (source.Blinker? ==> Recognisable(setups, source.sensor, source.id))
    requires PassageFor(params, setups, source, p, FramesOf(shots, t), t)
    ensures AllConsistent(Initial(setups))
    ensures SomeOwnOnly(setups[t], source, t, |p.at|, BlobAt(p, FramesOf(shots, t), |p.at| - 1),
                        RunAll(params, Identifiers(setups), Initial(setups), shots[..p.first + |p.at|])[t].leds)
  {
    OneIdentifiesInPassing(params, setups, source, p, FramesOf(shots, t), t);
    RunAllPrefix(params, setups, shots, t, p.first + |p.at|);
  }

  lemma OneIdentifiesInPassing(params: Params, setups: seq<Setup>, source: Source, p: Passage, frames: seq<Frame>, t: nat)
    requires t < |setups| && Ready(setups[t]) && (source.Blinker? ==> Recognisable(setups, source.sensor, source.id))
    requires setups[t].est.rig.Consistent() && PassageFor(params, setups, source, p, frames, t)
    ensures SomeOwnOnly(setups[t], source, t, |p.at|, BlobAt(p, frames, |p.at| - 1),
                        Run(params, Some(setups[t].identifier), setups[t].est, frames[..p.first + |p.at|]).leds)
  {
    var setup := setups[t];
    SourceBehaves(setups, source, t, Course(p, frames));
    var i := IdentifiedInPassing(params, setup.identifier, setup.pats, setup.est, p, frames);
    var leds := Run(params, Some(setup.identifier), setup.est, frames[..p.first + |p.at|]).leds;
    assert leds == LedsAfter(params, setup.identifier, setup.est, p, frames, |p.at| - 1);
    CarriesOwnOnly(setups, source, t, |p.at|, leds[i]);
  }
}
