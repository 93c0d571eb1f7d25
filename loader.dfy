/** BodyEditorLoader: holds the loaded model, attaches a body's fixtures at a
    given scale, answers image-path and origin lookups, and keeps a FIFO pool
    of scratch vectors and a scratch vector `vec` that these operations write. */
module Loader {
  import opened Geometry
  import opened JsonValue
  import opened Reader
  import opened Fixtures

  // ---------------------------------------------------------------------------
  // The scratch-vector pool
  // ---------------------------------------------------------------------------

  /** The pool after `n` calls of NewVec: each takes the front vector, if any. */
  function Drop(pool: seq<Vec2>, n: nat): seq<Vec2> {
    if n <= |pool| then pool[n..] else []
  }

  /** The pool after the polygon loop of attachFixture: each polygon takes one
      vector per vertex from the front and then frees its moved vertices. */
  function PoolAfterPolygons(pool: seq<Vec2>, polygons: seq<PolygonModel>, origin: Vec2, scale: real): seq<Vec2>
    decreases |polygons|
  {
    if polygons == [] then pool
    else
      var vs := polygons[0].vertices;
      PoolAfterPolygons(Drop(pool, |vs|) + Placed(vs, origin, scale), polygons[1..], origin, scale)
  }

  /** The pool after the circle loop of attachFixture: each circle takes one
      vector from the front and then frees its scaled centre. */
  function PoolAfterCircles(pool: seq<Vec2>, circles: seq<CircleModel>, scale: real): seq<Vec2>
    decreases |circles|
  {
    if circles == [] then pool
    else PoolAfterCircles(Drop(pool, 1) + [Scale(circles[0].center, scale)], circles[1..], scale)
  }

  function PoolAfterAttach(pool: seq<Vec2>, rb: RigidBodyModel, scale: real): seq<Vec2> {
    PoolAfterCircles(PoolAfterPolygons(pool, rb.polygons, rb.origin, scale), rb.circles, scale)
  }

  lemma {:induction false} PolygonsKeepPool(pool: seq<Vec2>, polygons: seq<PolygonModel>, origin: Vec2, scale: real)
    ensures |PoolAfterPolygons(pool, polygons, origin, scale)| >= |pool|
    decreases |polygons|
  {
    if polygons != [] {
      var vs := polygons[0].vertices;
      PolygonsKeepPool(Drop(pool, |vs|) + Placed(vs, origin, scale), polygons[1..], origin, scale);
    }
  }

  lemma {:induction false} CirclesKeepPool(pool: seq<Vec2>, circles: seq<CircleModel>, scale: real)
    ensures |PoolAfterCircles(pool, circles, scale)| >= |pool|
    decreases |circles|
  {
    if circles != [] {
      CirclesKeepPool(Drop(pool, 1) + [Scale(circles[0].center, scale)], circles[1..], scale);
    }
  }

  /** Attaching a body's fixtures never shrinks the pool: every vector taken
      from it is given back. */
  lemma PoolNeverShrinks(pool: seq<Vec2>, rb: RigidBodyModel, scale: real)
    ensures |PoolAfterAttach(pool, rb, scale)| >= |pool|
  {
    PolygonsKeepPool(pool, rb.polygons, rb.origin, scale);
    CirclesKeepPool(PoolAfterPolygons(pool, rb.polygons, rb.origin, scale), rb.circles, scale);
  }

  // ---------------------------------------------------------------------------
  // The loader
  // ---------------------------------------------------------------------------

  class BodyEditorLoader {
    var model: Model
    var vectorPool: seq<Vec2>
    var vec: Vec2

    /** The state right after the constructor has read its document. */
    constructor (m: Model)
      ensures model == m && vectorPool == [] && vec == Vec2(0.0, 0.0)
    {
      model := m;
      vectorPool := [];
      vec := Vec2(0.0, 0.0);
    }

    /** Takes the front vector of the pool, or a fresh zero vector when the
        pool is empty. */
    method NewVec() returns (v: Vec2)
      modifies this`vectorPool
      ensures old(vectorPool) == [] ==> v == Vec2(0.0, 0.0) && vectorPool == []
      ensures old(vectorPool) != [] ==> v == old(vectorPool)[0] && vectorPool == old(vectorPool)[1..]
    {
      if |vectorPool| == 0 {
        return Vec2(0.0, 0.0);
      }
      v := vectorPool[0];
      vectorPool := vectorPool[1..];
    }

    /** Gives a vector back to the end of the pool. */
    method Free(v: Vec2)
      modifies this`vectorPool
      ensures vectorPool == old(vectorPool) + [v]
    {
      vectorPool := vectorPool + [v];
    }

    /** The body of attachFixture's polygon loop: copies the polygon's
        vertices, rewrites each in place as `v * scale - origin`, creates the
        fixture, then frees the rewritten vertices. */
    method AttachPolygon(body: Body, polygon: PolygonModel, rawOrigin: Vec2, origin: Vec2, scale: real)
      requires origin == Scale(rawOrigin, scale)
      modifies this`vectorPool, body`fixtures
      ensures body.fixtures == old(body.fixtures) + [PolygonFx(Placed(polygon.vertices, rawOrigin, scale))]
      ensures vectorPool == Drop(old(vectorPool), |polygon.vertices|) + Placed(polygon.vertices, rawOrigin, scale)
    {
      var raw := polygon.vertices;
      var vertices := new Vec2[|raw|](j requires 0 <= j < |raw| => raw[j]);
      ghost var pool0 := vectorPool;
      var ii, nn := 0, vertices.Length;
      while ii < nn
        invariant 0 <= ii <= nn
        invariant forall k :: 0 <= k < ii ==> vertices[k] == Place(raw[k], rawOrigin, scale)
        invariant forall k :: ii <= k < nn ==> vertices[k] == raw[k]
        invariant vectorPool == Drop(pool0, ii)
        invariant body.fixtures == old(body.fixtures)
      {
        var v := NewVec();
        v := Scale(vertices[ii], scale);
        vertices[ii] := v;
        vertices[ii] := Sub(vertices[ii], origin);
        ii := ii + 1;
      }
      ghost var placed := Placed(raw, rawOrigin, scale);
      assert vertices[..] == placed;

      body.CreateFixture(PolygonFx(vertices[..]));

      ii := 0;
      while ii < nn
        invariant 0 <= ii <= nn
        invariant vertices[..] == placed
        invariant vectorPool == Drop(pool0, nn) + vertices[..ii]
        invariant body.fixtures == old(body.fixtures) + [PolygonFx(vertices[..])]
      {
        Free(vertices[ii]);
        assert vertices[..ii + 1] == vertices[..ii] + [vertices[ii]];
        ii := ii + 1;
      }
      assert vertices[..ii] == vertices[..];
    }

    /** The body of attachFixture's circle loop: takes a vector from the pool,
        creates the circle fixture at the scaled centre, then frees that centre. */
    method AttachCircle(body: Body, circle: CircleModel, scale: real)
      modifies this`vectorPool, body`fixtures
      ensures body.fixtures == old(body.fixtures) + [CircleFixture(circle, scale)]
      ensures vectorPool == Drop(old(vectorPool), 1) + [Scale(circle.center, scale)]
    {
      var v2 := NewVec();
      v2 := Scale(circle.center, scale);
      var center := v2;
      var radius := circle.radius * scale;
      assert CircleFx(center, radius) == CircleFixture(circle, scale);

      body.CreateFixture(CircleFx(center, radius));

      Free(center);
    }

    /** The polygon loop of attachFixture: attaches the body's polygons in
        list order. */
    method AttachPolygons(body: Body, rbModel: RigidBodyModel, origin: Vec2, scale: real)
      requires origin == Scale(rbModel.origin, scale)
      modifies this`vectorPool, body`fixtures
      ensures body.fixtures == old(body.fixtures) + PolygonFixtures(rbModel.polygons, rbModel.origin, scale)
      ensures vectorPool == PoolAfterPolygons(old(vectorPool), rbModel.polygons, rbModel.origin, scale)
    {
      ghost var afterPolygons := PoolAfterPolygons(vectorPool, rbModel.polygons, rbModel.origin, scale);
      var i, n := 0, |rbModel.polygons|;
      while i < n
        invariant 0 <= i <= n
        invariant body.fixtures == old(body.fixtures) + PolygonFixtures(rbModel.polygons[..i], rbModel.origin, scale)
        invariant afterPolygons == PoolAfterPolygons(vectorPool, rbModel.polygons[i..], rbModel.origin, scale)
      {
        assert rbModel.polygons[i..][1..] == rbModel.polygons[i + 1..];
        AttachPolygon(body, rbModel.polygons[i], rbModel.origin, origin, scale);
        assert rbModel.polygons[..i + 1][..i] == rbModel.polygons[..i];
        i := i + 1;
      }
      assert rbModel.polygons[..n] == rbModel.polygons;
    }

    /** The circle loop of attachFixture: attaches the body's circles in list
        order. */
    method AttachCircles(body: Body, rbModel: RigidBodyModel, scale: real)
      modifies this`vectorPool, body`fixtures
      ensures body.fixtures == old(body.fixtures) + CircleFixtures(rbModel.circles, scale)
      ensures vectorPool == PoolAfterCircles(old(vectorPool), rbModel.circles, scale)
    {
      ghost var afterCircles := PoolAfterCircles(vectorPool, rbModel.circles, scale);
      var i, n := 0, |rbModel.circles|;
      while i < n
        invariant 0 <= i <= n
        invariant body.fixtures == old(body.fixtures) + CircleFixtures(rbModel.circles[..i], scale)
        invariant afterCircles == PoolAfterCircles(vectorPool, rbModel.circles[i..], scale)
      {
        assert rbModel.circles[i..][1..] == rbModel.circles[i + 1..];
        AttachCircle(body, rbModel.circles[i], scale);
        assert rbModel.circles[..i + 1][..i] == rbModel.circles[..i];
        i := i + 1;
      }
      assert rbModel.circles[..n] == rbModel.circles;
    }

    /** attachFixture once the body has been found: sets `vec` to the scaled
        origin, then attaches the polygons and the circles. */
    method AttachBody(body: Body, rbModel: RigidBodyModel, scale: real)
      modifies this`vec, this`vectorPool, body`fixtures
      ensures body.fixtures == old(body.fixtures) + BodyFixtures(rbModel, scale)
      ensures vec == Scale(rbModel.origin, scale)
      ensures vectorPool == PoolAfterAttach(old(vectorPool), rbModel, scale)
    {
      vec := Scale(rbModel.origin, scale);
      var origin := vec;

      ghost var before := body.fixtures;
      AttachPolygons(body, rbModel, origin, scale);
      ghost var afterPolygons := vectorPool;
      AttachCircles(body, rbModel, scale);
      assert vectorPool == PoolAfterCircles(afterPolygons, rbModel.circles, scale);
      ghost var polygons := PolygonFixtures(rbModel.polygons, rbModel.origin, scale);
      ghost var circles := CircleFixtures(rbModel.circles, scale);
      assert body.fixtures == before + polygons + circles;
      assert before + polygons + circles == before + (polygons + circles);
    }

    /** attachFixture: creates the named body's polygon fixtures, then its
        circle fixtures, at the given scale. A missing name fails before
        anything is created or written. */
    method AttachFixture(body: Body, name: string, scale: real) returns (r: Result<()>)
      modifies this`vec, this`vectorPool, body`fixtures
      ensures model == old(model)
      ensures name !in model.rigidBodies ==>
        r == Err(NotFound(name)) && body.fixtures == old(body.fixtures) &&
        vec == old(vec) && vectorPool == old(vectorPool)
      ensures name in model.rigidBodies ==>
        r == Ok(()) &&
        body.fixtures == old(body.fixtures) + BodyFixtures(model.rigidBodies[name], scale) &&
        vec == Scale(model.rigidBodies[name].origin, scale) &&
        vectorPool == PoolAfterAttach(old(vectorPool), model.rigidBodies[name], scale)
    {
      if name !in model.rigidBodies {
        return Err(NotFound(name));
      }
      var rbModel := model.rigidBodies[name];
      AttachBody(body, rbModel, scale);
      return Ok(());
    }

    /** getImagePath: the stored image path of the named body. */
    method GetImagePath(name: string) returns (r: Result<NetString>)
      ensures name !in model.rigidBodies ==> r == Err(NotFound(name))
      ensures name in model.rigidBodies ==> r == Ok(model.rigidBodies[name].imagePath)
    {
      if name !in model.rigidBodies {
        return Err(NotFound(name));
      }
      var rbModel := model.rigidBodies[name];
      return Ok(rbModel.imagePath);
    }

    /** getOrigin: the named body's origin times the scale, also left in `vec`. */
    method GetOrigin(name: string, scale: real) returns (r: Result<Vec2>)
      modifies this`vec
      ensures model == old(model)
      ensures name !in model.rigidBodies ==> r == Err(NotFound(name)) && vec == old(vec)
      ensures name in model.rigidBodies ==>
        r == Ok(Scale(model.rigidBodies[name].origin, scale)) && vec == r.value
    {
      if name !in model.rigidBodies {
        return Err(NotFound(name));
      }
      var rbModel := model.rigidBodies[name];
      vec := Scale(rbModel.origin, scale);
      return Ok(vec);
    }
  }

  /** The constructor: reads the document and starts with an empty pool, or
      fails with the reader's error. */
  method Load(doc: Json) returns (r: Result<BodyEditorLoader>)
    ensures ParsedModel(doc).Err? ==> r == Err(ParsedModel(doc).error)
    ensures ParsedModel(doc).Ok? ==>
      r.Ok? && fresh(r.value) && r.value.model == ParsedModel(doc).value &&
      r.value.vectorPool == [] && r.value.vec == Vec2(0.0, 0.0)
  {
    var m := ReadJson(doc);
    if m.Err? {
      return Err(m.error);
    }
    var loader := new BodyEditorLoader(m.value);
    return Ok(loader);
  }
}
