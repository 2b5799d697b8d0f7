/** Routes as nested JSON objects: removing transform levels and wrapping in a new one. */
module TransformLevels {
  import opened Types

  /** A JSON value; an atom stands for a string, a number or an array. */
  datatype Json = Null | Bool(value: bool) | Atom(text: string) | Object(members: map<string, Json>)
  {
    /** Members can be looked up; the JSON library throws when asked for those of any other value. */
    predicate MayHaveMembers() {
      Object? || Null?
    }

    predicate IsMember(key: string) {
      Object? && key in members
    }

    /** A level has a child that is an object; the innermost one has not. */
    predicate HasChildObject() {
      IsMember(CHILD) && members[CHILD].Object?
    }

    function Child(): (child: Json)
      requires HasChildObject()
      ensures child.Object? && child < this
    {
      members[CHILD]
    }

    function WithChild(child: Json): Json
      requires Object?
    {
      Object(members[CHILD := child])
    }

    /** Everything but the child. */
    function Body(): map<string, Json>
      requires Object?
    {
      members - {CHILD}
    }
  }

  const CHILD: string := "child"
  const SOURCE: string := "source"

  /** The levels of a value, outermost first, without the innermost. */
  function Levels(j: Json): (levels: seq<Json>)
    ensures forall i :: 0 <= i < |levels| ==> levels[i].HasChildObject()
    decreases j
  {
    if j.HasChildObject() then [j] + Levels(j.Child()) else []
  }

  function Innermost(j: Json): (inner: Json)
    ensures !inner.HasChildObject()
    decreases j
  {
    if j.HasChildObject() then Innermost(j.Child()) else j
  }

  /** Nests the levels, outermost first, around a value. */
  function Nest(levels: seq<Json>, inner: Json): (j: Json)
    requires forall i :: 0 <= i < |levels| ==> levels[i].Object?
    ensures inner.Object? || levels != [] ==> j.Object?
  {
    if levels == [] then inner else levels[0].WithChild(Nest(levels[1..], inner))
  }

  function Keep(levels: seq<Json>, p: Json -> bool): (kept: seq<Json>)
    ensures forall i :: 0 <= i < |kept| ==> kept[i] in levels && !p(kept[i])
  {
    if levels == [] then []
    else if p(levels[0]) then Keep(levels[1..], p)
    else [levels[0]] + Keep(levels[1..], p)
  }

  /** `remove_levels_if`: the kept levels nested around the innermost one. */
  function RemoveLevelsIf(input: Json, p: Json -> bool): Json
    requires input.MayHaveMembers()
  {
    var levels := Levels(input);
    Nest(Keep(levels, p), Innermost(input))
  }

  /** The two loops: levels are pushed on the way in and popped on the way out.
      Error stands for the exception that the JSON library throws at once. */
  method RemoveLevels(input: Json, p: Json -> bool) returns (r: Result<Json>)
    ensures r == if input.MayHaveMembers() then Ok(RemoveLevelsIf(input, p)) else Error
  {
    if !input.MayHaveMembers() {
      return Error;
    }
    var levels, inner := PushLevels(input, p);
    var current := PopLevels(levels, inner);
    r := Ok(current);
  }

  method PushLevels(input: Json, p: Json -> bool) returns (levels: seq<Json>, current: Json)
    requires input.MayHaveMembers()
    ensures levels == Keep(Levels(input), p) && current == Innermost(input)
  {
    levels := [];
    current := input;
    while current.HasChildObject()
      invariant Innermost(current) == Innermost(input)
      invariant levels + Keep(Levels(current), p) == Keep(Levels(input), p)
      decreases current
    {
      assert Levels(current)[1..] == Levels(current.Child());
      if !p(current) {
        levels := levels + [current];
      }
      current := current.Child();
    }
  }

  method PopLevels(kept: seq<Json>, inner: Json) returns (current: Json)
    requires forall i :: 0 <= i < |kept| ==> kept[i].Object?
    ensures current == Nest(kept, inner)
  {
    var levels := kept;
    current := inner;
    while |levels| > 0
      invariant levels <= kept
      invariant Nest(levels, current) == Nest(kept, inner)
    {
      var next := levels[|levels| - 1];
      var rest := levels[..|levels| - 1];
      assert levels == rest + [next];
      NestSnoc(rest, next, current);
      levels := rest;
      current := next.WithChild(current);
    }
  }

  lemma {:induction false} NestSnoc(levels: seq<Json>, last: Json, inner: Json)
    requires last.Object? && forall i :: 0 <= i < |levels| ==> levels[i].Object?
    ensures forall i :: 0 <= i < |levels + [last]| ==> (levels + [last])[i].Object?
    ensures Nest(levels + [last], inner) == Nest(levels, last.WithChild(inner))
  {
    if levels != [] {
      assert (levels + [last])[1..] == levels[1..] + [last];
      NestSnoc(levels[1..], last, inner);
    }
  }

  // ----- What is left, level by level

  /** What each level holds besides its child. */
  function Bodies(levels: seq<Json>): (bodies: seq<map<string, Json>>)
    requires forall i :: 0 <= i < |levels| ==> levels[i].Object?
    ensures |bodies| == |levels|
  {
    seq(|levels|, i requires 0 <= i < |levels| => levels[i].Body())
  }

  lemma BodiesOfCons(level: Json, rest: seq<Json>)
    requires level.Object? && forall i :: 0 <= i < |rest| ==> rest[i].Object?
    ensures forall i :: 0 <= i < |[level] + rest| ==> ([level] + rest)[i].Object?
    ensures Bodies([level] + rest) == [level.Body()] + Bodies(rest)
  {
  }

  lemma {:induction false} LevelsOfNest(levels: seq<Json>, inner: Json)
    requires inner.Object? && !inner.HasChildObject()
    requires forall i :: 0 <= i < |levels| ==> levels[i].Object?
    ensures Bodies(Levels(Nest(levels, inner))) == Bodies(levels)
    ensures Innermost(Nest(levels, inner)) == inner
  {
    if levels != [] {
      var rest := Nest(levels[1..], inner);
      var j := Nest(levels, inner);
      assert j.HasChildObject() && j.Child() == rest;
      LevelsOfNest(levels[1..], inner);
      assert j.Body() == levels[0].Body();
      assert Bodies(levels) == [levels[0].Body()] + Bodies(levels[1..]);
      assert Bodies(Levels(j)) == [j.Body()] + Bodies(Levels(rest));
    }
  }

  lemma BodiesOfChild(j: Json)
    requires j.HasChildObject()
    ensures Bodies(Levels(j)) == [j.Body()] + Bodies(Levels(j.Child()))
  {
    BodiesOfCons(j, Levels(j.Child()));
  }

  lemma SameParts(a: Json, b: Json)
    requires a.HasChildObject() && b.HasChildObject() && a.Body() == b.Body() && a.Child() == b.Child()
    ensures a == b
  {
    assert a.members == a.Body()[CHILD := a.Child()];
    assert b.members == b.Body()[CHILD := b.Child()];
  }

  /** Bodies and innermost level determine a value. */
  lemma {:induction false} DeterminedByBodies(a: Json, b: Json)
    requires Bodies(Levels(a)) == Bodies(Levels(b)) && Innermost(a) == Innermost(b)
    ensures a == b
    decreases a
  {
    assert |Levels(a)| == |Bodies(Levels(a))| == |Levels(b)|;
    if a.HasChildObject() {
      BodiesOfChild(a);
      BodiesOfChild(b);
      var bodies := Bodies(Levels(a));
      assert bodies[0] == a.Body() == b.Body();
      assert bodies[1..] == Bodies(Levels(a.Child())) == Bodies(Levels(b.Child()));
      DeterminedByBodies(a.Child(), b.Child());
      SameParts(a, b);
    }
  }

  lemma {:induction false} InnermostIsObject(j: Json)
    requires j.Object?
    ensures Innermost(j).Object?
    decreases j
  {
    if j.HasChildObject() {
      InnermostIsObject(j.Child());
    }
  }

  /** Removing levels filters them: what is left, level by level, is what the predicate
      does not hold of, in order, and the innermost level always stays. */
  lemma RemoveFilters(input: Json, p: Json -> bool)
    requires input.MayHaveMembers()
    ensures RemoveLevelsIf(input, p).MayHaveMembers()
    ensures var out := RemoveLevelsIf(input, p);
      Bodies(Levels(out)) == Bodies(Keep(Levels(input), p)) && Innermost(out) == Innermost(input)
  {
    if input.Object? {
      InnermostIsObject(input);
      LevelsOfNest(Keep(Levels(input), p), Innermost(input));
    }
  }

  /** The predicate does not look at the child. */
  ghost predicate IgnoresChild(p: Json -> bool) {
    forall a: Json, b: Json :: a.Object? && b.Object? && a.Body() == b.Body() ==> p(a) == p(b)
  }

  lemma {:induction false} KeepAlike(a: seq<Json>, b: seq<Json>, p: Json -> bool)
    requires |a| == |b|
    requires forall i :: 0 <= i < |a| ==> a[i].Object? && b[i].Object? && a[i].Body() == b[i].Body() && p(a[i]) == p(b[i])
    ensures Bodies(Keep(a, p)) == Bodies(Keep(b, p))
  {
    if a != [] {
      KeepAlike(a[1..], b[1..], p);
      if !p(a[0]) {
        BodiesOfCons(a[0], Keep(a[1..], p));
        BodiesOfCons(b[0], Keep(b[1..], p));
      }
    }
  }

  lemma KeepByBodies(a: seq<Json>, b: seq<Json>, p: Json -> bool)
    requires IgnoresChild(p)
    requires forall i :: 0 <= i < |a| ==> a[i].Object?
    requires forall i :: 0 <= i < |b| ==> b[i].Object?
    requires Bodies(a) == Bodies(b)
    ensures Bodies(Keep(a, p)) == Bodies(Keep(b, p))
  {
    assert |a| == |Bodies(a)| == |b|;
    forall i | 0 <= i < |a| ensures a[i].Body() == b[i].Body() && p(a[i]) == p(b[i]) {
      assert a[i].Body() == Bodies(a)[i] == b[i].Body();
    }
    KeepAlike(a, b, p);
  }

  lemma {:induction false} KeepTwice(levels: seq<Json>, p: Json -> bool, q: Json -> bool, either: Json -> bool)
    requires forall j :: either(j) == (p(j) || q(j))
    ensures Keep(Keep(levels, p), q) == Keep(levels, either)
  {
    if levels != [] {
      KeepTwice(levels[1..], p, q, either);
      if !p(levels[0]) {
        assert Keep(levels, p)[1..] == Keep(levels[1..], p);
      }
    }
  }

  /** Removing the levels of one predicate and then those of another that ignores
      the child removes those of either. */
  lemma RemoveTwice(input: Json, p: Json -> bool, q: Json -> bool, either: Json -> bool)
    requires input.MayHaveMembers() && IgnoresChild(q)
    requires forall j :: either(j) == (p(j) || q(j))
    ensures RemoveLevelsIf(input, p).MayHaveMembers()
    ensures RemoveLevelsIf(RemoveLevelsIf(input, p), q) == RemoveLevelsIf(input, either)
  {
    var once := RemoveLevelsIf(input, p);
    RemoveFilters(input, p);
    RemoveFilters(once, q);
    RemoveFilters(input, either);
    KeepByBodies(Levels(once), Keep(Levels(input), p), q);
    KeepTwice(Levels(input), p, q, either);
    DeterminedByBodies(RemoveLevelsIf(once, q), RemoveLevelsIf(input, either));
  }

  /** Removing again changes nothing. */
  lemma RemoveIdempotent(input: Json, p: Json -> bool)
    requires input.MayHaveMembers() && IgnoresChild(p)
    ensures RemoveLevelsIf(input, p).MayHaveMembers()
    ensures RemoveLevelsIf(RemoveLevelsIf(input, p), p) == RemoveLevelsIf(input, p)
  {
    RemoveTwice(input, p, p, p);
  }

  lemma {:induction false} NestLevels(j: Json)
    ensures Nest(Levels(j), Innermost(j)) == j
    decreases j
  {
    if j.HasChildObject() {
      NestLevels(j.Child());
      assert Levels(j)[1..] == Levels(j.Child());
      assert j.WithChild(j.Child()).members == j.members;
    }
  }

  /** Removing changes a value if and only if there is a level to remove. */
  lemma UnchangedIff(input: Json, p: Json -> bool)
    requires input.MayHaveMembers()
    ensures RemoveLevelsIf(input, p) == input <==> forall i :: 0 <= i < |Levels(input)| ==> !p(Levels(input)[i])
  {
    var levels := Levels(input);
    KeepAllIff(levels, p);
    NestLevels(input);
    if Keep(levels, p) != levels {
      RemoveFilters(input, p);
      assert |Bodies(levels)| == |levels| && |Bodies(Keep(levels, p))| < |levels|;
    }
  }

  lemma {:induction false} KeepAllIff(levels: seq<Json>, p: Json -> bool)
    ensures |Keep(levels, p)| <= |levels|
    ensures |Keep(levels, p)| == |levels| <==> Keep(levels, p) == levels
    ensures Keep(levels, p) == levels <==> forall i :: 0 <= i < |levels| ==> !p(levels[i])
  {
    if levels != [] {
      KeepAllIff(levels[1..], p);
      assert levels == [levels[0]] + levels[1..];
    }
  }

  // ----- Wrapping a route

  /** What is assigned to as an object; null becomes an empty one. */
  function Members(j: Json): map<string, Json>
    requires j.MayHaveMembers()
  {
    if j.Object? then j.members else map[]
  }

  /** `wrapRoute`; an absent source reads as null. */
  function WrapRoute(currentRoute: Json, newLevel: Json): (route: Json)
    requires currentRoute.MayHaveMembers() && newLevel.MayHaveMembers()
    ensures route.Object? && SOURCE in route.members && route.members[SOURCE].Object?
  {
    var prevSource := if SOURCE in Members(currentRoute) then Members(currentRoute)[SOURCE] else Null;
    Object(Members(currentRoute)[SOURCE := Object(Members(newLevel)[CHILD := prevSource])])
  }

  /** A calibration layer says so in a member of its own. */
  predicate IsCalibration(level: Json) {
    level.IsMember("calibration") && level.members["calibration"].Bool? && level.members["calibration"].value
  }

  /** The layer that the calibration tool makes; `rotate` is the rotation it found. */
  function ToolLayer(rotate: Json): Json {
    Object(map["calibration" := Bool(true), "rotate" := rotate])
  }

  /** A value is pruned as a calibration layer just when its member says true: the tool's own layers
      are, and one that says false, says it otherwise or does not say it is not. */
  lemma ToolLayersArePruned(rotate: Json, members: map<string, Json>)
    ensures IsCalibration(ToolLayer(rotate))
    ensures IsCalibration(Object(members)) <==> "calibration" in members && members["calibration"] == Bool(true)
  {
  }

  lemma CalibrationIgnoresChild()
    ensures IgnoresChild(IsCalibration)
  {
    forall a: Json, b: Json | a.Object? && b.Object? && a.Body() == b.Body()
      ensures IsCalibration(a) == IsCalibration(b)
    {
      assert "calibration" in a.Body() <==> "calibration" in a.members;
      assert "calibration" in b.Body() <==> "calibration" in b.members;
    }
  }

  /** A route with another source; nothing else of it is touched. */
  function WithSource(route: Json, source: Json): Json
    requires route.Object?
  {
    Object(route.members[SOURCE := source])
  }

  /** Calibrating again: pruning the source of a route that was pruned and then wrapped in a new
      layer gives the route back if and only if what was pruned first is an object. */
  lemma PruneUndoesWrap(input: Json, route: Json, newLayer: Json)
    requires input.MayHaveMembers()
    requires route.Object? && SOURCE in route.members && route.members[SOURCE] == RemoveLevelsIf(input, IsCalibration)
    requires newLayer.Object? && IsCalibration(newLayer)
    ensures var wrapped := WrapRoute(route, newLayer);
      WithSource(wrapped, RemoveLevelsIf(wrapped.members[SOURCE], IsCalibration)) == route <==> input.Object?
  {
    var source := route.members[SOURCE];
    var wrapped := newLayer.WithChild(source);
    assert WrapRoute(route, newLayer) == WithSource(route, wrapped);
    RestoredIff(route, wrapped, RemoveLevelsIf(wrapped, IsCalibration));
    CalibrationIgnoresChild();
    SourceWasObject(input);
    if source.Object? {
      assert wrapped.Body() == newLayer.Body();
      assert Levels(wrapped)[1..] == Levels(source);
      assert RemoveLevelsIf(wrapped, IsCalibration) == RemoveLevelsIf(source, IsCalibration);
      RemoveIdempotent(input, IsCalibration);
    } else {
      assert RemoveLevelsIf(wrapped, IsCalibration) == wrapped;
    }
  }

  /** Calibrating a route adds one layer around its source, with everything the layer holds, and keeps the other layers. */
  lemma WrapAddsLevel(route: Json, newLayer: Json)
    requires route.Object? && route.IsMember(SOURCE) && route.members[SOURCE].Object? && newLayer.Object?
    ensures var source, wrapped := route.members[SOURCE], WrapRoute(route, newLayer).members[SOURCE];
      && Bodies(Levels(wrapped)) == [newLayer.Body()] + Bodies(Levels(source)) && Innermost(wrapped) == Innermost(source)
  {
    var source := route.members[SOURCE];
    var wrapped := newLayer.WithChild(source);
    assert WrapRoute(route, newLayer).members[SOURCE] == wrapped;
    assert wrapped.Body() == newLayer.Body();
    BodiesOfChild(wrapped);
  }

  /** Calibrating twice leaves one layer: the tool prunes the layer of the first time and adds its own. */
  lemma CalibrateTwice(route: Json, first: Json, second: Json)
    requires route.Object? && route.IsMember(SOURCE) && route.members[SOURCE].Object?
    ensures Calibrate(route, first).Object? && Calibrate(route, first).IsMember(SOURCE) && Calibrate(route, first).members[SOURCE].MayHaveMembers()
    ensures Calibrate(Calibrate(route, first), second) == Calibrate(route, second)
  {
    var pruned := WithSource(route, RemoveLevelsIf(route.members[SOURCE], IsCalibration));
    ToolLayersArePruned(first, map[]);
    PruneUndoesWrap(route.members[SOURCE], pruned, ToolLayer(first));
  }

  /** What the tool makes of a route: it prunes the calibration layers of its source and wraps it in a new one. */
  function Calibrate(route: Json, rotate: Json): Json
    requires route.Object? && route.IsMember(SOURCE) && route.members[SOURCE].MayHaveMembers()
  {
    WrapRoute(WithSource(route, RemoveLevelsIf(route.members[SOURCE], IsCalibration)), ToolLayer(rotate))
  }

  lemma RestoredIff(route: Json, wrapped: Json, pruned: Json)
    requires route.Object? && SOURCE in route.members
    ensures WithSource(WithSource(route, wrapped), pruned) == route <==> pruned == route.members[SOURCE]
  {
    if pruned == route.members[SOURCE] {
      assert route.members[SOURCE := wrapped][SOURCE := pruned] == route.members;
    }
  }

  /** The input that fails is null: it passes the pruning, and the new layer around it
      is itself the innermost level, which every further pruning keeps. */
  lemma NullKeepsItsLayer(route: Json, newLayer: Json)
    requires route.Object? && route.IsMember(SOURCE) && route.members[SOURCE] == RemoveLevelsIf(Null, IsCalibration)
    requires newLayer.Object? && IsCalibration(newLayer)
    ensures var again := RemoveLevelsIf(WrapRoute(route, newLayer).members[SOURCE], IsCalibration);
      again == newLayer.WithChild(Null) && IsCalibration(again)
  {
    var wrapped := newLayer.WithChild(Null);
    assert WrapRoute(route, newLayer).members[SOURCE] == wrapped;
    assert !wrapped.HasChildObject();
    CalibrationIgnoresChild();
    assert wrapped.Body() == newLayer.Body();
  }

  /** Pruning makes objects of objects only. */
  lemma SourceWasObject(input: Json)
    requires input.MayHaveMembers()
    ensures RemoveLevelsIf(input, IsCalibration).Object? <==> input.Object?
  {
    if input.Object? {
      InnermostIsObject(input);
    }
  }
}
