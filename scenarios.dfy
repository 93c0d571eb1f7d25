/** Concrete documents worked through the reader and the fixture transformer,
    each by a lemma. */
module Scenarios {
  import opened Geometry
  import opened JsonValue
  import opened Reader
  import opened Writer
  import opened Fixtures

  const UnitSquare: PolygonModel :=
    PolygonModel([Vec2(0.0, 0.0), Vec2(1.0, 0.0), Vec2(1.0, 1.0), Vec2(0.0, 1.0)])

  const Box: RigidBodyModel :=
    RigidBodyModel(Str("box"), Str("box.png"), Vec2(0.5, 0.0), [UnitSquare], [])

  const Wheel: RigidBodyModel :=
    RigidBodyModel(Str("wheel"), Str("wheel.png"), Vec2(0.0, 0.0), [], [CircleModel(Vec2(0.5, 0.5), 0.25)])

  /** A box with origin (0.5, 0) and the unit square as its only polygon,
      attached at scale 2: exactly one polygon fixture, the square doubled and
      moved left by one, and no circle fixture. */
  lemma BoxExample()
    ensures ParsedModel(DocumentJson([Box])).Ok?
    ensures var m := ParsedModel(DocumentJson([Box])).value.rigidBodies;
      "box" in m &&
      BodyFixtures(m["box"], 2.0) == [PolygonFx([Vec2(-1.0, 0.0), Vec2(1.0, 0.0), Vec2(1.0, 2.0), Vec2(-1.0, 2.0)])]
  {
    DocumentRoundTrip([Box]);
    BoxFixtures();
    SquarePlaced();
  }

  /** The fixtures of the box, before the arithmetic is worked out. */
  lemma BoxFixtures()
    ensures BodyFixtures(Box, 2.0) == [PolygonFx(Placed(UnitSquare.vertices, Vec2(0.5, 0.0), 2.0))]
  {
    var polygons := PolygonFixtures(Box.polygons, Box.origin, 2.0);
    PolygonFixturesAt(Box.polygons, Box.origin, 2.0);
    assert |polygons| == 1 && polygons[0] == PolygonFx(Placed(UnitSquare.vertices, Box.origin, 2.0));
    assert CircleFixtures(Box.circles, 2.0) == [];
  }

  /** The unit square's corners placed relative to (0.5, 0) at scale 2. */
  lemma SquarePlaced()
    ensures Placed(UnitSquare.vertices, Vec2(0.5, 0.0), 2.0) ==
      [Vec2(-1.0, 0.0), Vec2(1.0, 0.0), Vec2(1.0, 2.0), Vec2(-1.0, 2.0)]
  {
    PlacedValues(UnitSquare.vertices, Vec2(0.5, 0.0), 2.0,
      [Vec2(-1.0, 0.0), Vec2(1.0, 0.0), Vec2(1.0, 2.0), Vec2(-1.0, 2.0)]);
  }

  /** A wheel with origin (0, 0) and one circle of centre (0.5, 0.5) and radius
      0.25, attached at scale 4: one circle fixture, centre (2, 2), radius 1. */
  lemma WheelExample()
    ensures ParsedModel(DocumentJson([Wheel])).Ok?
    ensures var m := ParsedModel(DocumentJson([Wheel])).value.rigidBodies;
      "wheel" in m && BodyFixtures(m["wheel"], 4.0) == [CircleFx(Vec2(2.0, 2.0), 1.0)]
  {
    DocumentRoundTrip([Wheel]);
    assert BodyFixtures(Wheel, 4.0) == [CircleFixture(Wheel.circles[0], 4.0)];
  }

  /** As written, the circle of the wheel example is rejected: its fields are
      boxed doubles, which the `(float)` unboxing cannot convert. */
  lemma WheelCircleRejectedAsWritten()
    ensures ParsedCircleAsWritten(CircleJson(CircleModel(Vec2(0.5, 0.5), 0.25))) == None
    ensures ParsedCircle(CircleJson(CircleModel(Vec2(0.5, 0.5), 0.25))) == Some(CircleModel(Vec2(0.5, 0.5), 0.25))
    ensures ParsedModelAsWritten(DocumentJson([Wheel])).Err?
  {
    var doc := DocumentJson([Wheel]);
    var elems := Field(doc.members, "rigidBodies").elems;
    assert elems[0] == BodyJson(Wheel);
    assert Field(elems[0].members, "circles") == JArray(CirclesJson(Wheel.circles));
    CirclesNeverLoadAsWritten(doc, 0);
  }

  /** No object read by the unboxing conversion ever becomes a circle. */
  lemma CircleAsWrittenAlwaysFails(e: Json)
    ensures ParsedCircleAsWritten(e) == None
  {
  }

  /** Two bodies with the same name: Dictionary.Add rejects the second. */
  lemma DuplicateNameExample()
    ensures ParsedModel(DocumentJson([Box, Box])) == Err(DuplicateName("box"))
  {
    BodyRoundTrip(Box);
    var doc := DocumentJson([Box, Box]);
    var elems := Field(doc.members, "rigidBodies").elems;
    assert |elems| == 2 && elems[0] == BodyJson(Box) && elems[1] == BodyJson(Box);
    var bodies := ParsedBodies(elems);
    assert bodies[0] == Some(Box) && bodies[1] == Some(Box);
    assert bodies[1..][0] == Some(Box);
    assert AddBodies(map[], bodies) == AddBodies(map["box" := Box], bodies[1..]);
  }

  /** A document with no bodies loads as the empty model. */
  lemma EmptyDocumentExample()
    ensures ParsedModel(JObject(map["rigidBodies" := JArray([])])) == Ok(Model(map[]))
  {
    assert ParsedBodies([]) == [];
  }

  /** A document without a `rigidBodies` array does not load. */
  lemma MissingBodiesExample()
    ensures ParsedModel(JObject(map[])) == Err(Malformed)
    ensures ParsedModel(JObject(map["rigidBodies" := JObject(map[])])) == Err(Malformed)
  {
  }

  /** Integer and floating-point numbers are both accepted, and a missing
      coordinate reads as zero (Convert.ToSingle of null). */
  lemma PointConversions()
    ensures ParsedPoint(JObject(map["x" := JInteger(1), "y" := JFloat(0.5)])) == Some(Vec2(1.0, 0.5))
    ensures ParsedPoint(JObject(map["y" := JFloat(0.5)])) == Some(Vec2(0.0, 0.5))
    ensures ParsedPoint(JObject(map["x" := JString("1"), "y" := JFloat(0.5)])) == None
    ensures ParsedPoint(JObject(map["x" := JInteger(0x8000_0000_0000_0000), "y" := JFloat(0.5)])) == None
  {
    assert Field(map["y" := JFloat(0.5)], "x") == JNull;
  }
}
