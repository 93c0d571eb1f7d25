/** Reading an exported document into a Model (readJson / readRigidBody).

    The specification functions (Parsed*) say what a document means; the
    methods ReadJson and ReadRigidBody build the model with index loops as the
    loader does and are proved equal to them. */
module Reader {
  import opened Geometry
  import opened JsonValue

  // ---------------------------------------------------------------------------
  // Conversions of single field values
  // ---------------------------------------------------------------------------

  /** The integers the JSON reader boxes as a 64-bit long. */
  predicate InLongRange(i: int) {
    -0x8000_0000_0000_0000 <= i < 0x8000_0000_0000_0000
  }

  /** `(String) obj`: null passes as a null reference; any value that is not a
      string fails the cast. */
  function CastString(v: Json): Option<NetString> {
    match v
    case JNull => Some(Null)
    case JString(s) => Some(Str(s))
    case _ => None
  }

  /** `Convert.ToSingle(obj)`: null converts to zero, a boolean to one or zero,
      a boxed long or double to itself; objects and arrays are not convertible.
      An integer outside the 64-bit range is boxed as a BigInteger, which is
      not convertible either. */
  function ToSingle(v: Json): Option<real> {
    match v
    case JNull => Some(0.0)
    case JBool(b) => Some(if b then 1.0 else 0.0)
    case JInteger(i) => if InLongRange(i) then Some(i as real) else None
    case JFloat(r) => Some(r)
    case JString(_) => None
    case JArray(_) => None
    case JObject(_) => None
  }

  /** `(float) obj`, an unboxing conversion: it succeeds only on a boxed float,
      and the JSON reader boxes numbers as long, BigInteger or double, never
      as float. */
  function UnboxSingle(v: Json): Option<real> {
    match v
    case JNull => None          // unboxing null throws
    case JInteger(_) => None    // a boxed long or BigInteger is not a float
    case JFloat(_) => None      // a boxed double is not a float
    case _ => None              // strings, booleans, objects, arrays
  }

  // ---------------------------------------------------------------------------
  // Specification of the reader
  // ---------------------------------------------------------------------------

  /** Reads every element of a JSON array in order; one failing element fails
      the whole array. */
  function Collect<T>(elems: seq<Json>, read: Json -> Option<T>): (r: Option<seq<T>>)
    ensures r.Some? ==>
      |r.value| == |elems| &&
      forall k :: 0 <= k < |elems| ==> read(elems[k]) == Some(r.value[k])
    ensures r.None? ==> exists k :: 0 <= k < |elems| && read(elems[k]).None?
    decreases |elems|
  {
    if elems == [] then Some([])
    else
      match Collect(elems[..|elems| - 1], read)
      case None => None
      case Some(prefix) =>
        match read(elems[|elems| - 1])
        case None => None
        case Some(last) => Some(prefix + [last])
  }

  /** Collect gives back exactly the values the elements read as. */
  lemma CollectAll<T>(elems: seq<Json>, read: Json -> Option<T>, xs: seq<T>)
    requires |elems| == |xs|
    requires forall k :: 0 <= k < |xs| ==> read(elems[k]) == Some(xs[k])
    ensures Collect(elems, read) == Some(xs)
  {
    assert forall k :: 0 <= k < |elems| ==> read(elems[k]).Some?;
    var r := Collect(elems, read);
    assert r.Some?;
    assert forall k :: 0 <= k < |xs| ==> r.value[k] == xs[k];
    assert r.value == xs;
  }

  /** A `{x, y}` object: a polygon vertex or a body origin. */
  function ParsedPoint(e: Json): Option<Vec2> {
    match e
    case JObject(f) =>
      (match (ToSingle(Field(f, "x")), ToSingle(Field(f, "y")))
       case (Some(x), Some(y)) => Some(Vec2(x, y))
       case _ => None)
    case _ => None
  }

  /** One element of `polygons`: an array of vertices, kept in document order. */
  function ParsedPolygon(e: Json): (r: Option<PolygonModel>)
    ensures r.Some? ==>
      e.JArray? && |r.value.vertices| == |e.elems| &&
      forall j :: 0 <= j < |e.elems| ==> ParsedPoint(e.elems[j]) == Some(r.value.vertices[j])
    ensures e.JArray? && (forall j :: 0 <= j < |e.elems| ==> ParsedPoint(e.elems[j]).Some?) ==> r.Some?
  {
    match e
    case JArray(vs) =>
      (match Collect(vs, ParsedPoint)
       case Some(ps) => Some(PolygonModel(ps))
       case None => None)
    case _ => None
  }

  /** One element of `circles` as the loader means it: `cx`, `cy` and `r`
      converted like every other coordinate. */
  function ParsedCircle(e: Json): Option<CircleModel> {
    match e
    case JObject(f) =>
      (match (ToSingle(Field(f, "cx")), ToSingle(Field(f, "cy")), ToSingle(Field(f, "r")))
       case (Some(cx), Some(cy), Some(r)) => Some(CircleModel(Vec2(cx, cy), r))
       case _ => None)
    case _ => None
  }

  /** One element of `circles` as the loader is written: the three fields are
      unboxed with `(float)`. */
  function ParsedCircleAsWritten(e: Json): Option<CircleModel> {
    match e
    case JObject(f) =>
      (match (UnboxSingle(Field(f, "cx")), UnboxSingle(Field(f, "cy")), UnboxSingle(Field(f, "r")))
       case (Some(cx), Some(cy), Some(r)) => Some(CircleModel(Vec2(cx, cy), r))
       case _ => None)
    case _ => None
  }

  /** One element of `rigidBodies`, its circles read with `readCircle`. */
  function BodyReadWith(e: Json, readCircle: Json -> Option<CircleModel>): Option<RigidBodyModel>
  {
    if !e.JObject? then None
    else
      var name := CastString(Field(e.members, "name"));
      var imagePath := CastString(Field(e.members, "imagePath"));
      var origin := ParsedPoint(Field(e.members, "origin"));
      var ps := Field(e.members, "polygons");
      var cs := Field(e.members, "circles");
      if name.None? || imagePath.None? || origin.None? || !ps.JArray? || !cs.JArray? then None
      else
        var polygons := Collect(ps.elems, ParsedPolygon);
        var circles := Collect(cs.elems, readCircle);
        if polygons.None? || circles.None? then None
        else Some(RigidBodyModel(name.value, imagePath.value, origin.value, polygons.value, circles.value))
  }

  /** One element of `rigidBodies`. The name may still be null here: that is
      only rejected when the body is added to the dictionary. */
  function ParsedBody(e: Json): (r: Option<RigidBodyModel>)
    // origin, polygons and circles are dereferenced without a null check
    ensures r.Some? ==>
      e.JObject? && Field(e.members, "origin").JObject? &&
      Field(e.members, "polygons").JArray? && Field(e.members, "circles").JArray?
    ensures r.Some? ==>
      e.JObject? &&
      CastString(Field(e.members, "name")) == Some(r.value.name) &&
      CastString(Field(e.members, "imagePath")) == Some(r.value.imagePath) &&
      ParsedPoint(Field(e.members, "origin")) == Some(r.value.origin)
    // polygons and circles keep document order
    ensures r.Some? ==>
      e.JObject? && Field(e.members, "polygons").JArray? &&
      |r.value.polygons| == |Field(e.members, "polygons").elems| &&
      forall k :: 0 <= k < |r.value.polygons| ==>
        ParsedPolygon(Field(e.members, "polygons").elems[k]) == Some(r.value.polygons[k])
    ensures r.Some? ==>
      e.JObject? && Field(e.members, "circles").JArray? &&
      |r.value.circles| == |Field(e.members, "circles").elems| &&
      forall k :: 0 <= k < |r.value.circles| ==>
        ParsedCircle(Field(e.members, "circles").elems[k]) == Some(r.value.circles[k])
  {
    BodyReadWith(e, ParsedCircle)
  }

  /** Every element of `rigidBodies` read on its own, in document order. */
  function ParsedBodies(elems: seq<Json>): seq<Option<RigidBodyModel>> {
    seq(|elems|, k requires 0 <= k < |elems| => ParsedBody(elems[k]))
  }

  /** Adds the read bodies to `acc` one after the other with Dictionary.Add:
      the first body that failed to read, has a null name or repeats a name
      already present fails the whole load. */
  function AddBodies(acc: map<string, RigidBodyModel>, bodies: seq<Option<RigidBodyModel>>): Result<map<string, RigidBodyModel>>
    decreases |bodies|
  {
    if bodies == [] then Ok(acc)
    else
      match bodies[0]
      case None => Err(Malformed)
      case Some(rb) =>
        match rb.name
        case Null => Err(NullName)
        case Str(n) =>
          if n in acc then Err(DuplicateName(n))
          else AddBodies(acc[n := rb], bodies[1..])
  }

  /** The model a document loads into, or the error that stops it. */
  function ParsedModel(doc: Json): (r: Result<Model>)
    // the rigidBodies container is dereferenced without a null check
    ensures r.Ok? ==> doc.JObject? && Field(doc.members, "rigidBodies").JArray?
  {
    match doc
    case JObject(f) =>
      (match Field(f, "rigidBodies")
       case JArray(elems) =>
         (match AddBodies(map[], ParsedBodies(elems))
          case Ok(m) => Ok(Model(m))
          case Err(err) => Err(err))
       case _ => Err(Malformed))
    case _ => Err(Malformed)
  }

  // ---------------------------------------------------------------------------
  // The reader as written, with circles unboxed
  // ---------------------------------------------------------------------------

  /** One element of `rigidBodies` as the loader is written. */
  function ParsedBodyAsWritten(e: Json): Option<RigidBodyModel> {
    BodyReadWith(e, ParsedCircleAsWritten)
  }

  /** The model a document loads into as the loader is written. */
  function ParsedModelAsWritten(doc: Json): Result<Model> {
    match doc
    case JObject(f) =>
      (match Field(f, "rigidBodies")
       case JArray(elems) =>
         (match AddBodies(map[], seq(|elems|, k requires 0 <= k < |elems| => ParsedBodyAsWritten(elems[k])))
          case Ok(m) => Ok(Model(m))
          case Err(err) => Err(err))
       case _ => Err(Malformed))
    case _ => Err(Malformed)
  }

  /** As written, a body reads only when its `circles` array is empty, and
      then it reads as the corrected reader reads it. */
  lemma BodyAsWritten(e: Json)
    ensures ParsedBodyAsWritten(e).Some? ==>
      e.JObject? && Field(e.members, "circles").JArray? && Field(e.members, "circles").elems == []
    ensures e.JObject? && Field(e.members, "circles").JArray? && Field(e.members, "circles").elems == [] ==>
      ParsedBodyAsWritten(e) == ParsedBody(e)
  {
    if e.JObject? && Field(e.members, "circles").JArray? {
      var cs := Field(e.members, "circles").elems;
      if cs == [] {
        assert Collect(cs, ParsedCircleAsWritten) == Some([]) == Collect(cs, ParsedCircle);
      } else {
        assert ParsedCircleAsWritten(cs[0]).None?;
        assert Collect(cs, ParsedCircleAsWritten).None?;
      }
    }
  }

  /** As written, a document with any body whose `circles` array is not
      empty never loads. */
  lemma CirclesNeverLoadAsWritten(doc: Json, k: int)
    requires doc.JObject? && Field(doc.members, "rigidBodies").JArray?
    requires 0 <= k < |Field(doc.members, "rigidBodies").elems|
    requires var b := Field(doc.members, "rigidBodies").elems[k];
      b.JObject? && Field(b.members, "circles").JArray? && Field(b.members, "circles").elems != []
    ensures ParsedModelAsWritten(doc).Err?
  {
    var elems := Field(doc.members, "rigidBodies").elems;
    var bodies := seq(|elems|, j requires 0 <= j < |elems| => ParsedBodyAsWritten(elems[j]));
    BodyAsWritten(elems[k]);
    assert bodies[k].None?;
    AddBodiesOk(map[], bodies);
  }

  // ---------------------------------------------------------------------------
  // What a successful load contains
  // ---------------------------------------------------------------------------

  /** Every element was read as a body with a non-null name. */
  ghost predicate BodiesRead(bodies: seq<Option<RigidBodyModel>>) {
    forall k :: 0 <= k < |bodies| ==> bodies[k].Some? && bodies[k].value.name.Str?
  }

  ghost function NameAt(bodies: seq<Option<RigidBodyModel>>, k: int): string
    requires BodiesRead(bodies) && 0 <= k < |bodies|
  {
    bodies[k].value.name.s
  }

  /** No element's name is already in `acc`, and no two elements share a name. */
  ghost predicate FreshNames(acc: map<string, RigidBodyModel>, bodies: seq<Option<RigidBodyModel>>)
    requires BodiesRead(bodies)
  {
    (forall k :: 0 <= k < |bodies| ==> NameAt(bodies, k) !in acc) &&
    (forall i, j :: 0 <= i < j < |bodies| ==> NameAt(bodies, i) != NameAt(bodies, j))
  }

  /** Adding bodies succeeds exactly when every body was read with a name and
      the names are new and distinct. */
  lemma {:induction false} AddBodiesOk(acc: map<string, RigidBodyModel>, bodies: seq<Option<RigidBodyModel>>)
    ensures AddBodies(acc, bodies).Ok? <==> BodiesRead(bodies) && FreshNames(acc, bodies)
    decreases |bodies|
  {
    if bodies == [] {
      return;
    }
    var rest := bodies[1..];
    if bodies[0].None? || bodies[0].value.name.Null? {
      return;
    }
    var n := bodies[0].value.name.s;
    if n in acc {
      assert !(BodiesRead(bodies) && FreshNames(acc, bodies)) by {
        if BodiesRead(bodies) {
          assert NameAt(bodies, 0) in acc;
        }
      }
      return;
    }
    var acc' := acc[n := bodies[0].value];
    AddBodiesOk(acc', rest);
    if BodiesRead(bodies) && FreshNames(acc, bodies) {
      assert BodiesRead(rest) by {
        forall k | 0 <= k < |rest| ensures rest[k].Some? && rest[k].value.name.Str? {
          assert rest[k] == bodies[k + 1];
        }
      }
      forall k | 0 <= k < |rest| ensures NameAt(rest, k) !in acc' {
        assert NameAt(rest, k) == NameAt(bodies, k + 1);
        assert NameAt(bodies, 0) != NameAt(bodies, k + 1);
      }
      forall i, j | 0 <= i < j < |rest| ensures NameAt(rest, i) != NameAt(rest, j) {
        assert NameAt(rest, i) == NameAt(bodies, i + 1);
        assert NameAt(rest, j) == NameAt(bodies, j + 1);
      }
    }
    if BodiesRead(rest) && FreshNames(acc', rest) {
      assert BodiesRead(bodies) by {
        forall k | 0 <= k < |bodies| ensures bodies[k].Some? && bodies[k].value.name.Str? {
          if k > 0 { assert bodies[k] == rest[k - 1]; }
        }
      }
      forall k | 0 <= k < |bodies| ensures NameAt(bodies, k) !in acc {
        if k > 0 { assert NameAt(bodies, k) == NameAt(rest, k - 1); }
      }
      forall i, j | 0 <= i < j < |bodies| ensures NameAt(bodies, i) != NameAt(bodies, j) {
        assert NameAt(bodies, j) == NameAt(rest, j - 1);
        if i > 0 { assert NameAt(bodies, i) == NameAt(rest, i - 1); }
      }
    }
  }

  /** A successful addition keeps the old entries, adds one entry per body
      under that body's own name, and adds nothing else. */
  lemma {:induction false} AddBodiesContents(acc: map<string, RigidBodyModel>, bodies: seq<Option<RigidBodyModel>>,
                                             m: map<string, RigidBodyModel>)
    requires AddBodies(acc, bodies) == Ok(m)
    ensures BodiesRead(bodies)
    ensures forall n :: n in acc ==> n in m && m[n] == acc[n]
    ensures forall k :: 0 <= k < |bodies| ==> NameAt(bodies, k) in m && m[NameAt(bodies, k)] == bodies[k].value
    ensures forall n :: n in m ==> n in acc || exists k :: 0 <= k < |bodies| && NameAt(bodies, k) == n
    ensures |m| == |acc| + |bodies|
    decreases |bodies|
  {
    if bodies == [] {
      return;
    }
    var rest := bodies[1..];
    var rb := bodies[0].value;
    var n := rb.name.s;
    var acc' := acc[n := rb];
    AddBodiesContents(acc', rest, m);
    assert BodiesRead(bodies) by {
      forall k | 0 <= k < |bodies| ensures bodies[k].Some? && bodies[k].value.name.Str? {
        if k > 0 { assert bodies[k] == rest[k - 1]; }
      }
    }
    forall k | 0 <= k < |bodies|
      ensures NameAt(bodies, k) in m && m[NameAt(bodies, k)] == bodies[k].value
    {
      if k > 0 { assert bodies[k] == rest[k - 1]; }
    }
    forall name | name in m ensures name in acc || exists k :: 0 <= k < |bodies| && NameAt(bodies, k) == name {
      if name !in acc' {
        var k :| 0 <= k < |rest| && NameAt(rest, k) == name;
        assert NameAt(bodies, k + 1) == name;
      } else if name == n {
        assert NameAt(bodies, 0) == name;
      }
    }
  }

  /** A document loads exactly when it has a `rigidBodies` array whose elements
      all read with distinct non-null names; the model then has one entry per
      element, stored under that element's own name. */
  lemma ParsedModelSpec(doc: Json)
    ensures ParsedModel(doc).Ok? <==>
      doc.JObject? && Field(doc.members, "rigidBodies").JArray? &&
      BodiesRead(ParsedBodies(Field(doc.members, "rigidBodies").elems)) &&
      FreshNames(map[], ParsedBodies(Field(doc.members, "rigidBodies").elems))
    ensures ParsedModel(doc).Ok? ==>
      doc.JObject? && Field(doc.members, "rigidBodies").JArray? &&
      var bodies := ParsedBodies(Field(doc.members, "rigidBodies").elems);
      var m := ParsedModel(doc).value.rigidBodies;
      BodiesRead(bodies) && |m| == |bodies| &&
      (forall k :: 0 <= k < |bodies| ==> NameAt(bodies, k) in m && m[NameAt(bodies, k)] == bodies[k].value) &&
      (forall n :: n in m ==> exists k :: 0 <= k < |bodies| && NameAt(bodies, k) == n) &&
      KeyedByName(ParsedModel(doc).value)
  {
    if doc.JObject? && Field(doc.members, "rigidBodies").JArray? {
      var bodies := ParsedBodies(Field(doc.members, "rigidBodies").elems);
      AddBodiesOk(map[], bodies);
      var added := AddBodies(map[], bodies);
      if added.Ok? {
        var m := added.value;
        assert ParsedModel(doc) == Ok(Model(m));
        AddBodiesContents(map[], bodies, m);
        forall n | n in m ensures m[n].name == Str(n) {
          var k :| 0 <= k < |bodies| && NameAt(bodies, k) == n;
        }
      } else {
        assert ParsedModel(doc).Err?;
      }
    }
  }

  /** After a successful load, element `k` of `rigidBodies` is stored, exactly
      as read, under the string in its own `name` field. */
  lemma LoadedEntry(doc: Json, k: int)
    requires ParsedModel(doc).Ok?
    requires 0 <= k < |Field(doc.members, "rigidBodies").elems|
    ensures var e := Field(doc.members, "rigidBodies").elems[k];
      var m := ParsedModel(doc).value.rigidBodies;
      e.JObject? && Field(e.members, "name").JString? &&
      Field(e.members, "name").s in m &&
      ParsedBody(e) == Some(m[Field(e.members, "name").s])
  {
    ParsedModelSpec(doc);
    var bodies := ParsedBodies(Field(doc.members, "rigidBodies").elems);
    assert NameAt(bodies, k) in ParsedModel(doc).value.rigidBodies;
  }

  // ---------------------------------------------------------------------------
  // The reader, as the loader runs it
  // ---------------------------------------------------------------------------

  /** The vertex loop of readRigidBody: reads one element of `polygons`
      vertex by vertex, appending in document order. */
  method ReadPolygon(verticesElem: Json) returns (r: Option<PolygonModel>)
    ensures r == ParsedPolygon(verticesElem)
  {
    if !verticesElem.JArray? {
      return None;
    }
    var elems := verticesElem.elems;
    var vertices: seq<Vec2> := [];
    var ii := 0;
    while ii < |elems|
      invariant 0 <= ii <= |elems|
      invariant Collect(elems[..ii], ParsedPoint) == Some(vertices)
    {
      var v := ParsedPoint(elems[ii]);
      if v.None? {
        return None;
      }
      assert elems[..ii + 1][..ii] == elems[..ii];
      vertices := vertices + [v.value];
      ii := ii + 1;
    }
    assert elems[..ii] == elems;
    return Some(PolygonModel(vertices));
  }

  /** The polygon loop of readRigidBody: reads the elements of `polygons` in
      document order. */
  method ReadPolygons(polygonsElem: seq<Json>) returns (r: Option<seq<PolygonModel>>)
    ensures r == Collect(polygonsElem, ParsedPolygon)
  {
    var polygons: seq<PolygonModel> := [];
    var i := 0;
    while i < |polygonsElem|
      invariant 0 <= i <= |polygonsElem|
      invariant Collect(polygonsElem[..i], ParsedPolygon) == Some(polygons)
    {
      var polygon := ReadPolygon(polygonsElem[i]);
      if polygon.None? {
        return None;
      }
      assert polygonsElem[..i + 1][..i] == polygonsElem[..i];
      polygons := polygons + [polygon.value];
      i := i + 1;
    }
    assert polygonsElem[..i] == polygonsElem;
    return Some(polygons);
  }

  /** The circle loop of readRigidBody: reads the elements of `circles` in
      document order. */
  method ReadCircles(circlesElem: seq<Json>) returns (r: Option<seq<CircleModel>>)
    ensures r == Collect(circlesElem, ParsedCircle)
  {
    var circles: seq<CircleModel> := [];
    var i := 0;
    while i < |circlesElem|
      invariant 0 <= i <= |circlesElem|
      invariant Collect(circlesElem[..i], ParsedCircle) == Some(circles)
    {
      var circle := ParsedCircle(circlesElem[i]);
      if circle.None? {
        return None;
      }
      assert circlesElem[..i + 1][..i] == circlesElem[..i];
      circles := circles + [circle.value];
      i := i + 1;
    }
    assert circlesElem[..i] == circlesElem;
    return Some(circles);
  }

  /** readRigidBody: reads the fields of one body, then its polygons and its
      circles, appending to lists in document order. */
  method ReadRigidBody(bodyElem: Json) returns (r: Option<RigidBodyModel>)
    ensures r == ParsedBody(bodyElem)
  {
    if !bodyElem.JObject? {
      return None;
    }
    var f := bodyElem.members;
    var name := CastString(Field(f, "name"));
    var imagePath := CastString(Field(f, "imagePath"));
    var origin := ParsedPoint(Field(f, "origin"));
    var polygonsElem := Field(f, "polygons");
    var circlesElem := Field(f, "circles");
    if name.None? || imagePath.None? || origin.None? || !polygonsElem.JArray? || !circlesElem.JArray? {
      return None;
    }
    var polygons := ReadPolygons(polygonsElem.elems);
    if polygons.None? {
      return None;
    }
    var circles := ReadCircles(circlesElem.elems);
    if circles.None? {
      return None;
    }
    return Some(RigidBodyModel(name.value, imagePath.value, origin.value, polygons.value, circles.value));
  }

  /** readJson: reads each element of `rigidBodies` in turn and adds it to the
      dictionary under its name. */
  method ReadJson(doc: Json) returns (r: Result<Model>)
    ensures r == ParsedModel(doc)
  {
    if !doc.JObject? {
      return Err(Malformed);
    }
    var bodiesElem := Field(doc.members, "rigidBodies");
    if !bodiesElem.JArray? {
      return Err(Malformed);
    }
    ghost var bodies := ParsedBodies(bodiesElem.elems);
    var m: map<string, RigidBodyModel> := map[];
    var i := 0;
    while i < |bodiesElem.elems|
      invariant 0 <= i <= |bodiesElem.elems|
      invariant AddBodies(map[], bodies) == AddBodies(m, bodies[i..])
    {
      assert bodies[i..][0] == bodies[i];
      assert bodies[i..][1..] == bodies[i + 1..];
      var rbModel := ReadRigidBody(bodiesElem.elems[i]);
      if rbModel.None? {
        return Err(Malformed);
      }
      var rb := rbModel.value;
      if rb.name.Null? {
        return Err(NullName);
      }
      if rb.name.s in m {
        return Err(DuplicateName(rb.name.s));
      }
      m := m[rb.name.s := rb];
      i := i + 1;
    }
    return Ok(Model(m));
  }
}
