/** The inverse of the reader: the document a model is exported as, in the
    editor's schema. Reading it back gives the model that was written. */
module Writer {
  import opened Geometry
  import opened JsonValue
  import opened Reader

  function StringJson(s: NetString): Json {
    match s
    case Null => JNull
    case Str(t) => JString(t)
  }

  function PointJson(v: Vec2): Json {
    JObject(map["x" := JFloat(v.x), "y" := JFloat(v.y)])
  }

  function PolygonJson(p: PolygonModel): Json {
    JArray(seq(|p.vertices|, j requires 0 <= j < |p.vertices| => PointJson(p.vertices[j])))
  }

  function CircleJson(c: CircleModel): Json {
    JObject(map["cx" := JFloat(c.center.x), "cy" := JFloat(c.center.y), "r" := JFloat(c.radius)])
  }

  function PolygonsJson(polygons: seq<PolygonModel>): seq<Json> {
    seq(|polygons|, k requires 0 <= k < |polygons| => PolygonJson(polygons[k]))
  }

  function CirclesJson(circles: seq<CircleModel>): seq<Json> {
    seq(|circles|, k requires 0 <= k < |circles| => CircleJson(circles[k]))
  }

  function BodyJson(rb: RigidBodyModel): Json {
    JObject(map[
      "name" := StringJson(rb.name),
      "imagePath" := StringJson(rb.imagePath),
      "origin" := PointJson(rb.origin),
      "polygons" := JArray(PolygonsJson(rb.polygons)),
      "circles" := JArray(CirclesJson(rb.circles))])
  }

  function DocumentJson(bodies: seq<RigidBodyModel>): Json {
    JObject(map["rigidBodies" := JArray(seq(|bodies|, k requires 0 <= k < |bodies| => BodyJson(bodies[k])))])
  }

  /** Every body has a name and no two share one. */
  predicate DistinctNames(bodies: seq<RigidBodyModel>) {
    (forall k :: 0 <= k < |bodies| ==> bodies[k].name.Str?) &&
    (forall i, j :: 0 <= i < j < |bodies| ==> bodies[i].name != bodies[j].name)
  }

  lemma PolygonRoundTrip(p: PolygonModel)
    ensures ParsedPolygon(PolygonJson(p)) == Some(p)
  {
    var elems := PolygonJson(p).elems;
    CollectAll(elems, ParsedPoint, p.vertices);
  }

  lemma PolygonsRoundTrip(polygons: seq<PolygonModel>)
    ensures Collect(PolygonsJson(polygons), ParsedPolygon) == Some(polygons)
  {
    var ps := PolygonsJson(polygons);
    forall k | 0 <= k < |polygons| ensures ParsedPolygon(ps[k]) == Some(polygons[k]) {
      PolygonRoundTrip(polygons[k]);
    }
    CollectAll(ps, ParsedPolygon, polygons);
  }

  lemma CirclesRoundTrip(circles: seq<CircleModel>)
    ensures Collect(CirclesJson(circles), ParsedCircle) == Some(circles)
  {
    CollectAll(CirclesJson(circles), ParsedCircle, circles);
  }

  lemma BodyRoundTrip(rb: RigidBodyModel)
    ensures ParsedBody(BodyJson(rb)) == Some(rb)
  {
    var f := BodyJson(rb).members;
    assert Field(f, "name") == StringJson(rb.name);
    assert Field(f, "imagePath") == StringJson(rb.imagePath);
    assert Field(f, "origin") == PointJson(rb.origin);
    assert Field(f, "polygons") == JArray(PolygonsJson(rb.polygons));
    assert Field(f, "circles") == JArray(CirclesJson(rb.circles));
    assert CastString(StringJson(rb.name)) == Some(rb.name);
    assert CastString(StringJson(rb.imagePath)) == Some(rb.imagePath);
    assert ParsedPoint(PointJson(rb.origin)) == Some(rb.origin);
    PolygonsRoundTrip(rb.polygons);
    CirclesRoundTrip(rb.circles);
  }

  /** Writing bodies with distinct names and reading the document back gives
      a model holding exactly those bodies, each under its own name. */
  lemma DocumentRoundTrip(bodies: seq<RigidBodyModel>)
    requires DistinctNames(bodies)
    ensures ParsedModel(DocumentJson(bodies)).Ok?
    ensures var m := ParsedModel(DocumentJson(bodies)).value.rigidBodies;
      |m| == |bodies| &&
      (forall k :: 0 <= k < |bodies| ==> bodies[k].name.s in m && m[bodies[k].name.s] == bodies[k]) &&
      (forall n :: n in m ==> exists k :: 0 <= k < |bodies| && bodies[k].name == Str(n))
  {
    var doc := DocumentJson(bodies);
    var elems := Field(doc.members, "rigidBodies").elems;
    var read := ParsedBodies(elems);
    forall k | 0 <= k < |bodies| ensures read[k] == Some(bodies[k]) {
      BodyRoundTrip(bodies[k]);
    }
    assert BodiesRead(read);
    forall k | 0 <= k < |bodies| ensures NameAt(read, k) == bodies[k].name.s { }
    ParsedModelSpec(doc);
  }
}
