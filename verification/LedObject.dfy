/** The tracked blob itself. */
module LedObject {
  import opened Types
  import opened LedIdentifier
  import opened LedModel

  class Led {
    var latestMeasurement: LedMeasurement
    var brightnessHistory: seq<real>
    var id: int
    const identifier: Option<Decoder>
    var lastBright: bool
    var novelty: uint8
    var wasUsedLastFrame: bool

    ghost function View(): LedState
      reads this
    {
      LedState(latestMeasurement, brightnessHistory, id, identifier, lastBright, novelty, wasUsedLastFrame)
    }

    constructor (identifier: Option<Decoder>, meas: LedMeasurement, garbage: uint8)
      ensures View() == Birth(identifier, meas, garbage)
    {
      this.identifier := identifier;
      id := NO_IDENTIFIER_OR_INSUFFICIENT_DATA;
      latestMeasurement := meas;
      brightnessHistory := [];
      lastBright := false;
      novelty := garbage;
      wasUsedLastFrame := false;
      new;
      AddMeasurement(meas, false);
    }

    method AddMeasurement(meas: LedMeasurement, blobsKeepId: bool)
      modifies this
      ensures View() == Observe(old(View()), meas, blobsKeepId)
    {
      latestMeasurement := meas;
      brightnessHistory := brightnessHistory + [meas.brightness];
      match identifier {
        case None =>
          id := NO_IDENTIFIER_OR_INSUFFICIENT_DATA;
        case Some(identifier) =>
          var r := GetId(identifier, id, brightnessHistory, lastBright, blobsKeepId);
          Recognize(r);
      }
    }

    /** Takes over what the identifier found; any change of the ID counts as a new recognition. */
    method Recognize(r: Reading)
      modifies this
      ensures View() == old(View()).(id := r.id, history := r.brightnesses, lastBright := r.lastBright,
                                     novelty := NextNovelty(old(novelty), r.id != old(id)))
    {
      var oldId := id;
      id, brightnessHistory, lastBright := r.id, r.brightnesses, r.lastBright;
      if oldId != id {
        novelty := MAX_NOVELTY;
      } else if novelty != 0 {
        novelty := novelty - 1;
      }
    }

    /** The nearest measurement within the threshold, or the length of the list. */
    method NearestBlob(meas: seq<LedMeasurement>, threshold: real) returns (k: nat)
      ensures k == Nearest(latestMeasurement.loc, meas, threshold)
    {
      if meas == [] {
        return |meas|;
      }
      var thresholdSquared := threshold * threshold;
      var location := latestMeasurement.loc;
      k := 0;
      var minDistSq := DistSquared(location, meas[0].loc);
      for n := 0 to |meas|
        invariant k < |meas| && minDistSq == DistSquared(location, meas[k].loc)
        invariant n == 0 ==> k == 0
        invariant n > 0 ==> k == ArgNearest(location, meas[..n])
      {
        var distSq := DistSquared(location, meas[n].loc);
        assert meas[..n + 1][..n] == meas[..n];
        if distSq < minDistSq {
          minDistSq := distSq;
          k := n;
        }
      }
      assert meas[..|meas|] == meas;
      if minDistSq <= thresholdSquared {
        return k;
      }
      return |meas|;
    }

    method MarkMisidentified()
      modifies this
      ensures View() == Refute(old(View()))
    {
      id := NO_IDENTIFIER_OR_INSUFFICIENT_DATA;
      if brightnessHistory != [] {
        brightnessHistory := [];
        brightnessHistory := brightnessHistory + [latestMeasurement.brightness];
      }
    }

    method MarkAsUsed()
      modifies this
      ensures View() == old(View()).(used := true)
    {
      wasUsedLastFrame := true;
    }

    method ResetUsed()
      modifies this
      ensures View() == old(View()).(used := false)
    {
      wasUsedLastFrame := false;
    }
  }
}
