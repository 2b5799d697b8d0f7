/** What one tracked blob holds, and what each of its operations does to it. */
module LedModel {
  import opened Types
  import opened LedIdentifier

  const MAX_NOVELTY: uint8 := 4

  /** An identifier that can decode: one made from at least one enabled pattern. */
  type Decoder = d: Identifier | d.length >= 1 witness Identifier(1, [])

  datatype LedState = LedState(
    latest: LedMeasurement,
    history: seq<real>,
    id: int,
    identifier: Option<Decoder>,
    lastBright: bool,
    novelty: uint8,
    used: bool)

  predicate Identified(led: LedState) {
    led.id >= 0
  }

  /** `addMeasurement`. */
  function Observe(led: LedState, meas: LedMeasurement, blobsKeepId: bool): LedState {
    var history := led.history + [meas.brightness];
    match led.identifier
    case None =>
      led.(latest := meas, history := history, id := NO_IDENTIFIER_OR_INSUFFICIENT_DATA)
    case Some(identifier) =>
      var r := Read(identifier, led.id, history, led.lastBright, blobsKeepId);
      led.(latest := meas, history := r.brightnesses, id := r.id, lastBright := r.lastBright,
           novelty := NextNovelty(led.novelty, r.id != led.id))
  }

  /** Novelty restarts when the ID changes and otherwise decays to zero. */
  function NextNovelty(novelty: uint8, changed: bool): uint8 {
    if changed then MAX_NOVELTY else if novelty != 0 then novelty - 1 else 0
  }

  /** The constructor; `garbage` is what the uninitialised novelty byte happens to hold. */
  function Birth(identifier: Option<Decoder>, meas: LedMeasurement, garbage: uint8): LedState {
    Observe(LedState(meas, [], NO_IDENTIFIER_OR_INSUFFICIENT_DATA, identifier, false, garbage, false), meas, false)
  }

  /** `markMisidentified`. */
  function Refute(led: LedState): LedState {
    led.(id := NO_IDENTIFIER_OR_INSUFFICIENT_DATA,
         history := if led.history == [] then [] else [led.latest.brightness])
  }

  /** Index of the blob nearest to p; the first one when several are equally near. */
  function ArgNearest(p: Point2, meas: seq<LedMeasurement>): (k: nat)
    requires meas != []
    ensures k < |meas|
    ensures forall j :: 0 <= j < k ==> DistSquared(p, meas[k].loc) < DistSquared(p, meas[j].loc)
    ensures forall j :: k < j < |meas| ==> DistSquared(p, meas[k].loc) <= DistSquared(p, meas[j].loc)
  {
    var last := |meas| - 1;
    if last == 0 then 0
    else
      var k := ArgNearest(p, meas[..last]);
      if DistSquared(p, meas[last].loc) < DistSquared(p, meas[k].loc) then last else k
  }

  /** `nearest`; the length of the list stands for its end iterator. */
  function Nearest(p: Point2, meas: seq<LedMeasurement>, threshold: real): (k: nat)
    ensures k <= |meas|
  {
    if meas == [] then 0
    else
      var k := ArgNearest(p, meas);
      if DistSquared(p, meas[k].loc) <= threshold * threshold then k else |meas|
  }
}
