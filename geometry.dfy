/** The loader's value types: 2D vectors, the geometry model built from an
    editor export, and the outcomes its operations report. */
module Geometry {

  datatype Option<+T> = None | Some(value: T)

  /** What a loader operation raises instead of returning. */
  datatype Error =
    | Malformed              // NullReferenceException / InvalidCastException while reading the document
    | NullName               // Dictionary.Add with a null key (ArgumentNullException)
    | DuplicateName(name: string)  // Dictionary.Add with a key already present (ArgumentException)
    | NotFound(name: string)       // the dictionary indexer on a missing key

  datatype Result<+T> = Ok(value: T) | Err(error: Error)

  /** A .NET string reference: either null or a character sequence. */
  datatype NetString = Null | Str(s: string)

  /** Vector2, with exact arithmetic in place of single precision. */
  datatype Vec2 = Vec2(x: real, y: real)

  /** `v * s` */
  function Scale(v: Vec2, s: real): Vec2 {
    Vec2(v.x * s, v.y * s)
  }

  /** `a - b` */
  function Sub(a: Vec2, b: Vec2): Vec2 {
    Vec2(a.x - b.x, a.y - b.y)
  }

  /** A normalised point moved into world scale relative to the body's origin:
      the point is scaled first and the already-scaled origin subtracted. */
  function Place(v: Vec2, origin: Vec2, scale: real): Vec2 {
    Sub(Scale(v, scale), Scale(origin, scale))
  }

  /** A placed point, coordinate by coordinate. */
  lemma PlaceValue(v: Vec2, origin: Vec2, scale: real, x: real, y: real)
    requires v.x * scale - origin.x * scale == x && v.y * scale - origin.y * scale == y
    ensures Place(v, origin, scale) == Vec2(x, y)
  {
  }

  datatype PolygonModel = PolygonModel(vertices: seq<Vec2>)

  datatype CircleModel = CircleModel(center: Vec2, radius: real)

  datatype RigidBodyModel = RigidBodyModel(
    name: NetString,
    imagePath: NetString,
    origin: Vec2,
    polygons: seq<PolygonModel>,
    circles: seq<CircleModel>)

  /** The loaded geometry: rigid bodies keyed by name. */
  datatype Model = Model(rigidBodies: map<string, RigidBodyModel>)

  /** Every body is stored under its own name. */
  ghost predicate KeyedByName(m: Model) {
    forall n :: n in m.rigidBodies ==> m.rigidBodies[n].name == Str(n)
  }
}
