/** How far a blob may have moved to be matched, and that only proportions matter. */
module MatchingRadius {
  import opened Types
  import opened LedModel
  import opened Matching

  /** The blob is no further from where the LED was last seen than the configured multiple of the LED's diameter. */
  predicate Reachable(params: Params, led: LedState, blob: LedMeasurement) {
    DistSquared(led.latest.loc, blob.loc)
    <= (params.blobMoveThreshold * led.latest.diameter) * (params.blobMoveThreshold * led.latest.diameter)
  }

  /** An LED alone with a blob survives if and only if it can reach it. */
  lemma AloneSurvivesIff(params: Params, led: LedState, blob: LedMeasurement)
    ensures Match(params, [led], [blob]).0 != [] <==> Reachable(params, led, blob)
  {
    PickIsNearest(params, led, [blob]);
  }

  /** In a whole frame an LED is deleted if and only if earlier LEDs took every blob that it can reach. */
  lemma DeletedIff(params: Params, leds: seq<LedState>, frame: seq<LedMeasurement>, claims: Claims, i: nat)
    requires Greedy(params, leds, frame, claims) && i < |leds|
    ensures claims[i].None? <==>
            forall j: nat :: j < |frame| && Reachable(params, leds[i], frame[j]) ==> j in TakenBy(claims[..i])
    ensures claims[i].Some? ==> claims[i].value < |frame| && Reachable(params, leds[i], frame[claims[i].value])
  {
    var taken := TakenBy(claims[..i]);
    assert Chooses(params, leds[i], frame, taken, claims[i]);
    forall j: nat | j < |frame| ensures Reachable(params, leds[i], frame[j]) <==> InReach(params, leds[i].latest, frame[j]) {
    }
    if claims[i].None? {
      forall j: nat | j < |frame| && Reachable(params, leds[i], frame[j]) ensures j in taken {
        assert !Free(taken, frame, j);
      }
    }
  }

  /** The list after a frame is the surviving LEDs in their old order, and then
      one new LED for each blob that nobody took, in the order of the frame. */
  lemma WholeUpdate(params: Params, identifier: Option<Decoder>, leds: seq<LedState>, frame: seq<LedMeasurement>, garbage: nat -> uint8)
    returns (claims: Claims, left: seq<nat>)
    ensures Greedy(params, leds, frame, claims) && InFrame(frame, claims) && Unclaimed(frame, TakenBy(claims), left)
    ensures var next, survivors := UpdateLeds(params, identifier, leds, frame, garbage), Survivors(params, leds, frame, claims);
      && |next| == |survivors| + |left| && next[..|survivors|] == survivors
      && forall n :: 0 <= n < |left| ==> next[|survivors| + n] == Birth(identifier, frame[left[n]], garbage(n))
  {
    claims, left := MatchIsGreedy(params, leds, frame);
  }

  // ----- Zooming

  function Zoomed(m: LedMeasurement, c: real): LedMeasurement {
    LedMeasurement(Point2(c * m.loc.x, c * m.loc.y), m.brightness, c * m.diameter)
  }

  function ZoomedLeds(leds: seq<LedState>, c: real): (r: seq<LedState>)
    ensures |r| == |leds| && forall i :: 0 <= i < |leds| ==> r[i] == leds[i].(latest := Zoomed(leds[i].latest, c))
  {
    seq(|leds|, i requires 0 <= i < |leds| => leds[i].(latest := Zoomed(leds[i].latest, c)))
  }

  function ZoomedFrame(frame: seq<LedMeasurement>, c: real): (r: seq<LedMeasurement>)
    ensures |r| == |frame| && forall i :: 0 <= i < |frame| ==> r[i] == Zoomed(frame[i], c)
  {
    seq(|frame|, i requires 0 <= i < |frame| => Zoomed(frame[i], c))
  }

  function Twice(c: real, x: real): real {
    c * (c * x)
  }

  lemma ScaledSquare(a: real, c: real, d: real)
    requires d == c * a
    ensures d * d == Twice(c, a * a)
  {
    assert d * d == c * (a * (c * a));
    assert a * (c * a) == c * (a * a);
  }

  lemma TwiceAdds(c: real, x: real, y: real)
    ensures Twice(c, x) + Twice(c, y) == Twice(c, x + y)
  {
    assert c * x + c * y == c * (x + y);
  }

  lemma DistanceZooms(p: Point2, q: Point2, c: real)
    ensures DistSquared(Point2(c * p.x, c * p.y), Point2(c * q.x, c * q.y)) == Twice(c, DistSquared(p, q))
  {
    ScaledSquare(p.x - q.x, c, c * p.x - c * q.x);
    ScaledSquare(p.y - q.y, c, c * p.y - c * q.y);
    TwiceAdds(c, (p.x - q.x) * (p.x - q.x), (p.y - q.y) * (p.y - q.y));
  }

  lemma OrderScales(a: real, b: real, s: real)
    requires s > 0.0
    ensures a <= b <==> s * a <= s * b
    ensures a < b <==> s * a < s * b
  {
    if a < b {
      assert s * (b - a) > 0.0;
    } else if b < a {
      assert s * (a - b) > 0.0;
    }
  }

  lemma OrderScalesTwice(a: real, b: real, c: real)
    requires c > 0.0
    ensures a <= b <==> Twice(c, a) <= Twice(c, b)
    ensures a < b <==> Twice(c, a) < Twice(c, b)
  {
    OrderScales(a, b, c);
    OrderScales(c * a, c * b, c);
  }

  lemma ReachZooms(params: Params, seen: LedMeasurement, blob: LedMeasurement, c: real)
    requires c > 0.0
    ensures InReach(params, seen, blob) <==> InReach(params, Zoomed(seen, c), Zoomed(blob, c))
  {
    var d, d' := DistSquared(seen.loc, blob.loc), DistSquared(Zoomed(seen, c).loc, Zoomed(blob, c).loc);
    DistanceZooms(seen.loc, blob.loc, c);
    RadiusZooms(params, seen, c);
    WithinZooms(d, d', MoveThreshold(params, seen), MoveThreshold(params, Zoomed(seen, c)), c);
  }

  lemma WithinZooms(d: real, d': real, t: real, t': real, c: real)
    requires c > 0.0 && d' == Twice(c, d) && t' == c * t
    ensures d <= t * t <==> d' <= t' * t'
  {
    ScaledSquare(t, c, t');
    OrderScalesTwice(d, t * t, c);
  }

  lemma RadiusZooms(params: Params, seen: LedMeasurement, c: real)
    ensures MoveThreshold(params, Zoomed(seen, c)) == c * MoveThreshold(params, seen)
  {
    assert params.blobMoveThreshold * (c * seen.diameter) == c * (params.blobMoveThreshold * seen.diameter);
  }

  lemma NearerZooms(seen: LedMeasurement, a: LedMeasurement, b: LedMeasurement, c: real)
    requires c > 0.0
    ensures Nearer(seen, a, b) <==> Nearer(Zoomed(seen, c), Zoomed(a, c), Zoomed(b, c))
  {
    DistanceZooms(seen.loc, a.loc, c);
    DistanceZooms(seen.loc, b.loc, c);
    OrderScalesTwice(DistSquared(seen.loc, a.loc), DistSquared(seen.loc, b.loc), c);
  }

  lemma ChoiceZooms(params: Params, led: LedState, frame: seq<LedMeasurement>, taken: set<nat>, choice: Option<nat>, c: real)
    requires c > 0.0
    ensures Chooses(params, led, frame, taken, choice) <==>
            Chooses(params, led.(latest := Zoomed(led.latest, c)), ZoomedFrame(frame, c), taken, choice)
  {
    var zoomed := ZoomedFrame(frame, c);
    forall j: nat | j < |frame|
      ensures Free(taken, frame, j) <==> Free(taken, zoomed, j)
      ensures InReach(params, led.latest, frame[j]) <==> InReach(params, Zoomed(led.latest, c), zoomed[j])
    {
      ReachZooms(params, led.latest, frame[j], c);
    }
    if choice.Some? && choice.value < |frame| {
      var k := choice.value;
      forall j: nat | j < |frame|
        ensures Nearer(led.latest, frame[k], frame[j]) <==> Nearer(Zoomed(led.latest, c), zoomed[k], zoomed[j])
        ensures Nearer(led.latest, frame[j], frame[k]) <==> Nearer(Zoomed(led.latest, c), zoomed[j], zoomed[k])
      {
        NearerZooms(led.latest, frame[k], frame[j], c);
        NearerZooms(led.latest, frame[j], frame[k], c);
      }
    }
  }

  /** Scaling all locations and diameters by one factor changes no claim. */
  lemma ZoomKeepsClaims(params: Params, leds: seq<LedState>, frame: seq<LedMeasurement>, claims: Claims, c: real)
    requires c > 0.0
    ensures Greedy(params, leds, frame, claims) <==> Greedy(params, ZoomedLeds(leds, c), ZoomedFrame(frame, c), claims)
  {
    if |claims| == |leds| {
      forall i | 0 <= i < |leds|
        ensures Chooses(params, leds[i], frame, TakenBy(claims[..i]), claims[i]) <==>
                Chooses(params, ZoomedLeds(leds, c)[i], ZoomedFrame(frame, c), TakenBy(claims[..i]), claims[i])
      {
        ChoiceZooms(params, leds[i], frame, TakenBy(claims[..i]), claims[i], c);
      }
    }
  }
}
