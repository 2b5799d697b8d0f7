/** A tracker from its construction on: sensors are added, and then one image after the other is processed. */
module TrackerSession {
  import opened Types
  import opened LedModel
  import opened LedObject
  import opened Matching
  import opened PoseModel
  import opened SensorModel
  import opened SensorRun
  import opened SharedScene
  import opened VideoTracker

  /** What a sensor is added with. */
  datatype Config = Config(identifier: Option<Decoder>, given: BeaconSet, requiredInliers: nat, permittedOutliers: nat)
  {
    predicate Accepted() {
      |given.beacons| == |given.emission|
    }
  }

  function NewSensors(params: Params, configs: seq<Config>): (states: seq<SensorState>)
    ensures |states| == |configs|
  {
    seq(|configs|, i requires 0 <= i < |configs| =>
      NewSensor(params, configs[i].given, configs[i].requiredInliers, configs[i].permittedOutliers))
  }

  function IdentifiersOf(configs: seq<Config>): (r: seq<Option<Decoder>>)
    ensures |r| == |configs|
  {
    seq(|configs|, i requires 0 <= i < |configs| => configs[i].identifier)
  }

  lemma NewSensorsSnoc(params: Params, configs: seq<Config>, n: nat)
    requires n < |configs|
    ensures NewSensors(params, configs[..n + 1]) == NewSensors(params, configs[..n])
              + [NewSensor(params, configs[n].given, configs[n].requiredInliers, configs[n].permittedOutliers)]
    ensures IdentifiersOf(configs[..n + 1]) == IdentifiersOf(configs[..n]) + [configs[n].identifier]
  {
  }

  /** Adds all sensors; the exception of the first that is not accepted ends it. */
  method SetUp(params: Params, configs: seq<Config>) returns (tracker: VideoBasedTracker, ok: bool)
    ensures fresh(tracker) && tracker.params == params
    ensures ok <==> forall i :: 0 <= i < |configs| ==> configs[i].Accepted()
    ensures ok ==> tracker.identifiers == IdentifiersOf(configs) && tracker.Stands(NewSensors(params, configs))
    ensures ok ==> AllConsistent(NewSensors(params, configs))
    ensures ok ==> (forall i :: 0 <= i < |tracker.estimators| ==> fresh(tracker.estimators[i])) && tracker.Leds() == {}
  {
    tracker := new VideoBasedTracker(params);
    ok := true;
    for n := 0 to |configs|
      invariant tracker.Stands(NewSensors(params, configs[..n])) && tracker.identifiers == IdentifiersOf(configs[..n])
      invariant forall i :: 0 <= i < n ==> configs[i].Accepted()
      invariant forall i :: 0 <= i < |tracker.estimators| ==> fresh(tracker.estimators[i])
    {
      ok := AddOne(tracker, params, configs, n);
      if !ok {
        return;
      }
    }
    assert configs[..|configs|] == configs;
    NoLeds(tracker, NewSensors(params, configs));
  }

  method AddOne(tracker: VideoBasedTracker, params: Params, configs: seq<Config>, n: nat) returns (ok: bool)
    requires n < |configs| && tracker.params == params
    requires tracker.Stands(NewSensors(params, configs[..n])) && tracker.identifiers == IdentifiersOf(configs[..n])
    modifies tracker
    ensures ok <==> configs[n].Accepted()
    ensures tracker.Stands(NewSensors(params, configs[..n + 1])) && tracker.identifiers == IdentifiersOf(configs[..n + 1])
    ensures forall i :: 0 <= i < |tracker.estimators| ==>
              fresh(tracker.estimators[i]) || (i < |old(tracker.estimators)| && tracker.estimators[i] == old(tracker.estimators[i]))
  {
    NewSensorsSnoc(params, configs, n);
    var c := configs[n];
    ghost var added;
    ok, added := tracker.AddSensor(c.identifier, c.given, c.requiredInliers, c.permittedOutliers, NewSensors(params, configs[..n]));
  }

  lemma NoLeds(tracker: VideoBasedTracker, states: seq<SensorState>)
    requires tracker.Stands(states) && forall i :: 0 <= i < |states| ==> states[i].leds == []
    ensures tracker.Leds() == {}
  {
  }

  /** Processes the images one after the other. */
  method ProcessAll(tracker: VideoBasedTracker, shots: seq<Shot>, ghost states: seq<SensorState>)
    requires tracker.Stands(states) && AllConsistent(states) && ForAll(shots, |states|)
    modifies tracker`ledGroups, tracker.estimators, tracker.Leds()
    ensures |states| == |tracker.identifiers| && tracker.identifiers == old(tracker.identifiers)
    ensures tracker.Stands(RunAll(tracker.params, tracker.identifiers, states, shots))
  {
    ghost var leds := tracker.Leds();
    ghost var now := states;
    for n := 0 to |shots|
      invariant |states| == |tracker.identifiers| && tracker.identifiers == old(tracker.identifiers)
      invariant tracker.estimators == old(tracker.estimators)
      invariant now == RunAll(tracker.params, tracker.identifiers, states, shots[..n]) && tracker.Stands(now)
      invariant forall led :: led in tracker.Leds() ==> led in leds || fresh(led)
    {
      RunAllSnoc(tracker.params, tracker.identifiers, states, shots, n);
      var gotPoses := tracker.ProcessImage(shots[n].blobs, shots[n].inputs, now);
      now := StepAll(tracker.params, tracker.identifiers, now, shots[n].blobs, shots[n].inputs);
    }
    assert shots[..|shots|] == shots;
  }

  lemma RunAllSnoc(params: Params, identifiers: seq<Option<Decoder>>, states: seq<SensorState>, shots: seq<Shot>, n: nat)
    requires |identifiers| == |states| && ForAll(shots, |states|) && AllConsistent(states) && n < |shots|
    ensures RunAll(params, identifiers, states, shots[..n + 1])
            == StepAll(params, identifiers, RunAll(params, identifiers, states, shots[..n]), shots[n].blobs, shots[n].inputs)
  {
    assert shots[..n + 1][..n] == shots[..n];
  }

  /** A whole session: the tracker ends up in the states that the run of its sensors leads to. */
  method Track(params: Params, configs: seq<Config>, shots: seq<Shot>) returns (tracker: VideoBasedTracker, ok: bool)
    requires ForAll(shots, |configs|)
    ensures ok <==> forall i :: 0 <= i < |configs| ==> configs[i].Accepted()
    ensures ok ==> AllConsistent(NewSensors(params, configs))
    ensures ok ==> tracker.identifiers == IdentifiersOf(configs)
    ensures ok ==> tracker.Stands(RunAll(params, IdentifiersOf(configs), NewSensors(params, configs), shots))
  {
    tracker, ok := SetUp(params, configs);
    if ok {
      ProcessAll(tracker, shots, NewSensors(params, configs));
    }
  }

  // ----- What the LED objects of a session carry

  /** The setup that a configuration with this pattern table amounts to. */
  function SetupOf(params: Params, config: Config, pats: seq<string>): Setup
    requires config.identifier.Some?
  {
    Setup(pats, config.identifier.value, NewSensor(params, config.given, config.requiredInliers, config.permittedOutliers).est)
  }

  ghost predicate SetUpAs(params: Params, configs: seq<Config>, tables: seq<seq<string>>, setups: seq<Setup>) {
    && |configs| == |tables| == |setups|
    && forall i :: 0 <= i < |configs| ==> configs[i].identifier.Some? && setups[i] == SetupOf(params, configs[i], tables[i])
  }

  lemma SameSensors(params: Params, configs: seq<Config>, tables: seq<seq<string>>, setups: seq<Setup>)
    requires SetUpAs(params, configs, tables, setups)
    ensures Identifiers(setups) == IdentifiersOf(configs) && Initial(setups) == NewSensors(params, configs)
  {
  }

  /** After a session on a shared scene the LED objects of every sensor carry the IDs of its own beacons, and no others. */
  lemma SessionIdentifies(tracker: VideoBasedTracker, params: Params, configs: seq<Config>, tables: seq<seq<string>>,
                          setups: seq<Setup>, sources: seq<Source>, at: seq<seq<nat>>, shots: seq<Shot>, t: nat)
    requires SetUpAs(params, configs, tables, setups) && AllConsistent(NewSensors(params, configs))
    requires t < |setups| && shots != [] && AllClear(params, setups, sources, at, shots)
    requires tracker.Stands(RunAll(params, IdentifiersOf(configs), NewSensors(params, configs), shots))
    ensures |tracker.ledGroups| == |configs| && |tracker.ledGroups[t]| == |sources|
    ensures forall i :: 0 <= i < |sources| ==>
              && tracker.ledGroups[t][i].latestMeasurement == SourcesSeen(sources, at, shots, |shots| - 1)[i]
              && OwnOnly(setups[t].identifier, sources[i], t,
                         Age(params, Some(setups[t].identifier), setups[t].est, FramesOf(shots, t), i), tracker.ledGroups[t][i].View())
  {
    SameSensors(params, configs, tables, setups);
    EachIdentifiesItsOwn(params, setups, sources, at, shots, t);
    ObjectsShow(tracker, RunAll(params, Identifiers(setups), Initial(setups), shots), t);
  }

  lemma ObjectsShow(tracker: VideoBasedTracker, states: seq<SensorState>, t: nat)
    requires tracker.Stands(states) && t < |states|
    ensures |tracker.ledGroups| == |states| && |tracker.ledGroups[t]| == |states[t].leds|
    ensures forall i :: 0 <= i < |states[t].leds| ==>
              && tracker.ledGroups[t][i].View() == states[t].leds[i]
              && tracker.ledGroups[t][i].latestMeasurement == Latest(states[t].leds)[i]
  {
  }
}
