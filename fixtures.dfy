/** The fixtures attachFixture creates on a physics body, and the body itself
    as a sink that records them. */
module Fixtures {
  import opened Geometry

  /** The geometry passed to one Body.CreateFixture call: the vertices given to
      the reusable PolygonShape, or the position and radius given to the
      reusable CircleShape. */
  datatype Fixture = PolygonFx(vertices: seq<Vec2>) | CircleFx(center: Vec2, radius: real)

  /** A physics body: fixtures are appended in the order they are created. */
  class Body {
    var fixtures: seq<Fixture>

    constructor ()
      ensures fixtures == []
    {
      fixtures := [];
    }

    method CreateFixture(f: Fixture)
      modifies this`fixtures
      ensures fixtures == old(fixtures) + [f]
    {
      fixtures := fixtures + [f];
    }
  }

  /** A polygon's vertices, each scaled and moved by the scaled origin. */
  function Placed(vs: seq<Vec2>, origin: Vec2, scale: real): seq<Vec2> {
    seq(|vs|, j requires 0 <= j < |vs| => Place(vs[j], origin, scale))
  }

  /** A polygon's placed vertices, given coordinate by coordinate. */
  lemma PlacedValues(vs: seq<Vec2>, origin: Vec2, scale: real, ps: seq<Vec2>)
    requires |vs| == |ps|
    requires forall j :: 0 <= j < |vs| ==>
      vs[j].x * scale - origin.x * scale == ps[j].x && vs[j].y * scale - origin.y * scale == ps[j].y
    ensures Placed(vs, origin, scale) == ps
  {
    var placed := Placed(vs, origin, scale);
    forall j | 0 <= j < |vs| ensures placed[j] == ps[j] {
      PlaceValue(vs[j], origin, scale, ps[j].x, ps[j].y);
    }
  }

  /** The polygon fixtures for a body's polygons, in list order. */
  function PolygonFixtures(polygons: seq<PolygonModel>, origin: Vec2, scale: real): (r: seq<Fixture>)
    ensures |r| == |polygons|
    decreases |polygons|
  {
    if polygons == [] then []
    else
      var last := polygons[|polygons| - 1];
      PolygonFixtures(polygons[..|polygons| - 1], origin, scale) + [PolygonFx(Placed(last.vertices, origin, scale))]
  }

  /** Polygon fixture `k` is made from polygon `k`. */
  lemma {:induction false} PolygonFixturesAt(polygons: seq<PolygonModel>, origin: Vec2, scale: real)
    ensures forall k :: 0 <= k < |polygons| ==>
      PolygonFixtures(polygons, origin, scale)[k] == PolygonFx(Placed(polygons[k].vertices, origin, scale))
    decreases |polygons|
  {
    if polygons != [] {
      var init := polygons[..|polygons| - 1];
      PolygonFixturesAt(init, origin, scale);
      assert forall k :: 0 <= k < |init| ==> init[k] == polygons[k];
    }
  }

  /** The fixture for one circle: the centre is scaled but not moved by the
      origin, and the radius is scaled. */
  function CircleFixture(c: CircleModel, scale: real): Fixture {
    CircleFx(Scale(c.center, scale), c.radius * scale)
  }

  /** The circle fixtures for a body's circles, in list order. */
  function CircleFixtures(circles: seq<CircleModel>, scale: real): (r: seq<Fixture>)
    ensures |r| == |circles|
    decreases |circles|
  {
    if circles == [] then []
    else
      CircleFixtures(circles[..|circles| - 1], scale) + [CircleFixture(circles[|circles| - 1], scale)]
  }

  /** Circle fixture `k` is made from circle `k`. */
  lemma {:induction false} CircleFixturesAt(circles: seq<CircleModel>, scale: real)
    ensures forall k :: 0 <= k < |circles| ==> CircleFixtures(circles, scale)[k] == CircleFixture(circles[k], scale)
    decreases |circles|
  {
    if circles != [] {
      var init := circles[..|circles| - 1];
      CircleFixturesAt(init, scale);
      assert forall k :: 0 <= k < |init| ==> init[k] == circles[k];
    }
  }

  /** Everything attachFixture creates for one body: its polygons, then its circles. */
  function BodyFixtures(rb: RigidBodyModel, scale: real): seq<Fixture> {
    PolygonFixtures(rb.polygons, rb.origin, scale) + CircleFixtures(rb.circles, scale)
  }

  /** One polygon fixture per stored polygon, in order, with the same number of
      vertices, each `vertex * scale - origin * scale`; then one circle fixture
      per stored circle, in order, centred on `center * scale` with radius
      `radius * scale`; nothing else. */
  lemma BodyFixturesSpec(rb: RigidBodyModel, scale: real)
    ensures |BodyFixtures(rb, scale)| == |rb.polygons| + |rb.circles|
    ensures forall k :: 0 <= k < |rb.polygons| ==>
      var fx := BodyFixtures(rb, scale)[k];
      fx.PolygonFx? && |fx.vertices| == |rb.polygons[k].vertices| &&
      forall j :: 0 <= j < |rb.polygons[k].vertices| ==>
        fx.vertices[j] == Sub(Scale(rb.polygons[k].vertices[j], scale), Scale(rb.origin, scale))
    ensures forall k :: 0 <= k < |rb.circles| ==>
      BodyFixtures(rb, scale)[|rb.polygons| + k] ==
      CircleFx(Scale(rb.circles[k].center, scale), rb.circles[k].radius * scale)
  {
    var fxs := BodyFixtures(rb, scale);
    PolygonFixturesAt(rb.polygons, rb.origin, scale);
    CircleFixturesAt(rb.circles, scale);
    forall k | 0 <= k < |rb.polygons|
      ensures fxs[k] == PolygonFx(Placed(rb.polygons[k].vertices, rb.origin, scale))
    {
    }
    forall k | 0 <= k < |rb.circles|
      ensures fxs[|rb.polygons| + k] == CircleFixture(rb.circles[k], scale)
    {
    }
  }
}
