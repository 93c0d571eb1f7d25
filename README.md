# BodyEditorLoader, modelled in Dafny

BodyEditorLoader reads the JSON file that the Physics Body Editor exports and
attaches the collision shapes it describes to a physics body. This project
models the loader in two stages.

- **Reading** (`readJson`, `readRigidBody`). The document's `rigidBodies`
  array becomes a `Model`. This is a dictionary from body name to
  `RigidBodyModel`, which holds:
  - `name` and `imagePath`;
  - a normalised `origin`;
  - a list of polygons, each a list of vertices;
  - a list of circles, each a centre and a radius.
- **Attaching** (`attachFixture`). The loader looks up a body by name. It
  creates one polygon fixture per polygon, in list order, with every vertex
  placed as `vertex * scale - origin * scale`. It then creates one circle
  fixture per circle, with centre `center * scale` and radius `radius * scale`.
  The centre is not moved by the origin.

The loader also has two accessors, `getImagePath` and `getOrigin`. It keeps
two pieces of scratch state:
- `vec`, which `attachFixture` and `getOrigin` both write;
- a FIFO pool of vectors, managed by `NewVec` and `Free`.

Layout:

- `geometry.dfy`, module `Geometry`:
  - vectors (`Vec2`, with `real` coordinates);
  - the model records;
  - the outcome types;
  - `Place`, the vertex transform.
- `json.dfy`, module `JsonValue`: the tokenised JSON tree. Integers and
  floating-point numbers stay distinct, because the reader boxes them as
  different .NET types.
- `reader.dfy`, module `Reader`:
  - the .NET conversions used by the reader: the `(String)` cast,
    `Convert.ToSingle` and the `(float)` unboxing;
  - the functions that say what a document means;
  - the methods `ReadJson`, `ReadRigidBody`, `ReadPolygons`, `ReadPolygon`
    and `ReadCircles`.
    They read the document with index loops as the loader does, and each is
    proved equal to its function.
- `writer.dfy`, module `Writer`: a serializer in the editor's format. Its
  round-trip lemmas show that reading gives back every field, in order.
- `fixtures.dfy`, module `Fixtures`:
  - `Body`, the physics body, modelled as a sink that records the fixtures
    created on it;
  - the specification of what `attachFixture` creates.
- `loader.dfy`, module `Loader`: the class `BodyEditorLoader`, with the
  fields `model`, `vectorPool` and `vec`. Its methods work in place:
  - `AttachPolygon` rewrites a fresh copy of the vertices, held in an array;
  - the pool is consumed from the front and refilled at the back.
- `scenarios.dfy`, module `Scenarios`: concrete documents worked through the
  model, each by a lemma.

Where the loader's intended behaviour differs from its code, the model follows
the code, with one exception: the circle fields at lines 263-265. There the
reader used throughout the model converts circles as the loader evidently
intends, and the code as written is modelled beside it (see "Findings").

- **A duplicate body name is an error.** It is not an overwrite, because
  bodies are inserted with `Dictionary.Add`
  (`Reader.AddBodies`, `Scenarios.DuplicateNameExample`).
- **A circle's centre is only scaled.** The scaled origin is not subtracted
  from it (`Fixtures.CircleFixture`).
- **Missing fields are not always failures:**
  - a missing or null `name`, `imagePath` or coordinate is not a failure at
    the point where it is read;
  - a missing coordinate reads as 0, because `Convert.ToSingle(null)` is 0;
  - a null `imagePath` is kept as null;
  - a null `name` fails only when the body is added to the dictionary.
- **Every circle fails to read as written.** See "Findings". The rest of the
  model reads circles as the loader evidently intends; `Reader.ParsedBodyAsWritten`
  and `Reader.ParsedModelAsWritten` read them as written, and then no document
  with a circle loads.
- **Integers outside the 64-bit range do not convert.** The JSON reader boxes
  them as `BigInteger`, which `Convert.ToSingle` rejects.

## Model

| member | source | states |
|---|---|---|
| Reader.Collect | BodyEditorLoader.cs:241-248 | reading an array succeeds with one value per element, in document order, each what its element reads as; it fails only if some element fails |
| Reader.CollectAll | BodyEditorLoader.cs:241-248 | when every element reads, the array reads as exactly those values in order |
| Reader.ParsedPolygon | BodyEditorLoader.cs:240-248 | a polygon is read only from an array; vertex j of the polygon is element j of that array, and the polygon has as many vertices as the array has elements; if every element is a readable point, the polygon is read |
| Reader.ParsedBody | BodyEditorLoader.cs:219-269 | a body is read only if `origin` is an object and `polygons` and `circles` are arrays (they are dereferenced without null checks); `name` and `imagePath` are the cast values; the origin is the converted point; polygon k and circle k come from element k, and the counts match |
| Reader.ParsedModel | BodyEditorLoader.cs:205-209 | a document loads only if it is an object whose `rigidBodies` is an array |
| Reader.AddBodiesOk | BodyEditorLoader.cs:209-214 | adding the bodies succeeds if and only if every element was read, every name is non-null, and no name repeats or is already present |
| Reader.AddBodiesContents | BodyEditorLoader.cs:209-214 | after a successful addition: earlier entries are kept; each body is stored under its own name; there are no other entries; the size grows by the number of bodies |
| Reader.ParsedModelSpec | BodyEditorLoader.cs:201-217 | a document loads if and only if it has a `rigidBodies` array whose elements all read with distinct non-null names; the model then has exactly one entry per element, and every entry is keyed by its body's name |
| Reader.LoadedEntry | BodyEditorLoader.cs:209-213 | after a load, element k is stored exactly as read, under the string in its own `name` field |
| Reader.BodyAsWritten | BodyEditorLoader.cs:255-266 | as written, a body reads only when its `circles` array is empty, and then it reads exactly as the corrected reader reads it |
| Reader.CirclesNeverLoadAsWritten | BodyEditorLoader.cs:201-217 | as written, a document in which any body has a non-empty `circles` array fails to load |
| Reader.ReadPolygon | BodyEditorLoader.cs:240-248 | the vertex loop builds the same polygon as the specification, or fails in the same cases |
| Reader.ReadPolygons | BodyEditorLoader.cs:232-251 | the polygon loop reads the polygons in document order, and fails if any polygon fails |
| Reader.ReadCircles | BodyEditorLoader.cs:255-266 | the circle loop reads the circles in document order, and fails if any circle fails |
| Reader.ReadRigidBody | BodyEditorLoader.cs:219-269 | readRigidBody with its polygon and circle loops returns exactly the specification's body, or fails exactly when the specification fails |
| Reader.ReadJson | BodyEditorLoader.cs:201-217 | readJson's loop of `Dictionary.Add` calls returns exactly the specification's model, or the same error (malformed body, null name, duplicate name) |
| Writer.PolygonRoundTrip | BodyEditorLoader.cs:240-248 | a written polygon reads back as the same vertices, in order |
| Writer.PolygonsRoundTrip | BodyEditorLoader.cs:233-251 | a written `polygons` array reads back as the same polygons, in order |
| Writer.CirclesRoundTrip | BodyEditorLoader.cs:255-266 | a written `circles` array reads back as the same circles, in order, once the fields are converted like every other number |
| Writer.BodyRoundTrip | BodyEditorLoader.cs:219-269 | a written body reads back with every field unchanged |
| Writer.DocumentRoundTrip | BodyEditorLoader.cs:201-217 | writing bodies with distinct names and loading the document gives a model with exactly those bodies, each under its own name |
| Fixtures.Body.CreateFixture | BodyEditorLoader.cs:104-105 | creating a fixture appends it to the body's fixtures |
| Fixtures.PlacedValues | BodyEditorLoader.cs:96-101 | each placed vertex is `vertex * scale - origin * scale`, coordinate by coordinate (equal to `(vertex - origin) * scale` only in exact arithmetic, which the model uses) |
| Fixtures.PolygonFixtures | BodyEditorLoader.cs:91-111 | there is exactly one polygon fixture per polygon |
| Fixtures.PolygonFixturesAt | BodyEditorLoader.cs:91-111 | polygon fixture k is made from polygon k's vertices, placed relative to the scaled origin |
| Fixtures.CircleFixtures | BodyEditorLoader.cs:113-126 | there is exactly one circle fixture per circle |
| Fixtures.CircleFixturesAt | BodyEditorLoader.cs:113-126 | circle fixture k is made from circle k |
| Fixtures.BodyFixturesSpec | BodyEditorLoader.cs:88-126 | attaching a body creates as many fixtures as it has polygons plus circles. Fixture k (k < number of polygons) is polygon k with the same vertex count, each vertex `v * scale - origin * scale`. Then come the circles in order, each centred on `center * scale` (not offset by the origin) with radius `radius * scale` |
| Loader.PolygonsKeepPool | BodyEditorLoader.cs:96-110 | the polygon loop never shrinks the vector pool |
| Loader.CirclesKeepPool | BodyEditorLoader.cs:115-125 | the circle loop never shrinks the vector pool |
| Loader.PoolNeverShrinks | BodyEditorLoader.cs:88-126 | the vector pool is at least as long after attachFixture as before |
| Loader.BodyEditorLoader.constructor | BodyEditorLoader.cs:28-46 | a new loader holds the read model, an empty pool and a zero `vec` |
| Loader.BodyEditorLoader.NewVec | BodyEditorLoader.cs:275-285 | takes the front vector of the pool, or returns a zero vector when the pool is empty |
| Loader.BodyEditorLoader.Free | BodyEditorLoader.cs:287-290 | appends the vector to the back of the pool |
| Loader.BodyEditorLoader.AttachPolygon | BodyEditorLoader.cs:93-110 | appends one polygon fixture: the copied vertices, each rewritten in place to `v * scale - origin`; the pool loses one front vector per vertex and gains the rewritten vertices |
| Loader.BodyEditorLoader.AttachCircle | BodyEditorLoader.cs:115-125 | appends one circle fixture at the scaled centre with the scaled radius; the pool loses one front vector and gains the centre |
| Loader.BodyEditorLoader.AttachPolygons | BodyEditorLoader.cs:91-111 | the polygon loop appends the body's polygon fixtures in list order |
| Loader.BodyEditorLoader.AttachCircles | BodyEditorLoader.cs:113-126 | the circle loop appends the body's circle fixtures in list order |
| Loader.BodyEditorLoader.AttachBody | BodyEditorLoader.cs:88-126 | once the body is found: sets `vec` to the scaled origin, appends exactly the body's fixtures, and leaves the pool in the predicted state |
| Loader.BodyEditorLoader.AttachFixture | BodyEditorLoader.cs:82-127 | the model never changes. A missing name fails with NotFound, and no fixture, `vec` or pool change follows. Otherwise exactly the body's fixtures are appended; they depend only on the model and the scale, never on the pool's contents; `vec` is the scaled origin |
| Loader.BodyEditorLoader.GetImagePath | BodyEditorLoader.cs:133-139 | returns the stored image path, or fails with NotFound for a missing name |
| Loader.BodyEditorLoader.GetOrigin | BodyEditorLoader.cs:148-154 | returns `origin * scale` and leaves it in `vec`, or fails with NotFound and leaves `vec` alone; the model never changes |
| Loader.Load | BodyEditorLoader.cs:40-46 | construction succeeds exactly when the document loads, and gives a fresh loader holding that model; otherwise it fails with the reader's error |
| Scenarios.BoxExample | BodyEditorLoader.cs:88-111 | the box with origin (0.5, 0) and the unit square at scale 2 gives one polygon fixture `[(-1,0), (1,0), (1,2), (-1,2)]` and no circle fixture |
| Scenarios.WheelExample | BodyEditorLoader.cs:113-126 | a circle of centre (0.5, 0.5) and radius 0.25 at scale 4 gives one circle fixture, centre (2, 2), radius 1 |
| Scenarios.WheelCircleRejectedAsWritten | BodyEditorLoader.cs:262-265 | as written, that circle does not read and the wheel document fails to load; with the conversion used everywhere else the circle reads as written out |
| Scenarios.CircleAsWrittenAlwaysFails | BodyEditorLoader.cs:262-265 | as written, no element of `circles` ever reads |
| Scenarios.DuplicateNameExample | BodyEditorLoader.cs:213 | a document with two bodies named "box" fails with a duplicate-name error |
| Scenarios.EmptyDocumentExample | BodyEditorLoader.cs:207-216 | an empty `rigidBodies` array loads as the empty model |
| Scenarios.MissingBodiesExample | BodyEditorLoader.cs:207-209 | a document without a `rigidBodies` array does not load |
| Scenarios.PointConversions | BodyEditorLoader.cs:228-229 | integer and floating-point coordinates are both accepted, a missing coordinate reads as 0, and a string coordinate or an integer beyond the 64-bit range fails |

## Left out

- The constructor's file read (`File.ReadAllText`, line 42). `Loader.Load` starts from the parsed JSON value.
- The Newtonsoft tokenizer and `ToObject<OrderedDictionary>`. They are replaced by the `Json` datatype. A value that Newtonsoft would turn into a `DateTime` (a date-like string) is treated as a plain string.
- Reader.ToSingle: a string value is treated as a failure. `Convert.ToSingle` would parse a numeric string under the current culture; culture-dependent parsing is not modelled.
- Single-precision rounding. Coordinates are `real`, so `v * scale - origin * scale` is exact.
- Farseer's `PolygonShape.Set`, `CircleShape` and the fixture internals of `Body.CreateFixture`. `Fixtures.Body` records only the geometry passed to each call. The two reusable shapes are not modelled as separate objects.
- `PolygonModel.buffer` (lines 188 and 250). It is allocated but never read.
- `getInternalModel` (lines 162-165). It only returns the field. The model records are Dafny values, so outside code cannot alias and mutate them.
- The null check on the looked-up body (lines 86, 136 and 151). The dictionary indexer already throws for a missing key, so that check can never fire. A missing name is modelled as the `NotFound` outcome.
- Reader.ReadCircles, Reader.ParsedBody, Reader.ReadRigidBody, Reader.ReadJson, Reader.ParsedModel, Loader.Load: these read circles with `Convert.ToSingle` (the evidently intended conversion), so `Load` accepts documents with circles that the code as written rejects with an `InvalidCastException` at line 263. `Writer.BodyRoundTrip`, `Writer.DocumentRoundTrip` and `Scenarios.WheelExample` rely on this. The code as written is `Reader.ParsedModelAsWritten`, under which such documents never load.
- Loader.BodyEditorLoader.AttachFixture, Loader.BodyEditorLoader.GetImagePath, Loader.BodyEditorLoader.GetOrigin: the name parameter is a Dafny `string`, which cannot be null. The source's `ArgumentNullException` for a null name (the dictionary indexer at lines 85, 135 and 150) is not expressible.
- Exceptions are modelled as `Err` outcomes. Malformed documents, which raise `NullReferenceException` and `InvalidCastException`, become one `Malformed` value. The model does not keep which exception or which field caused the failure.

## Findings

| source | as written | input that shows it | evidently intended | confidence | as-written member | corrected member |
|---|---|---|---|---|---|---|
| BodyEditorLoader.cs:263-265 | `cx`, `cy` and `r` are read with the unboxing cast `(float)`. The JSON reader boxes numbers as `long`, `BigInteger` or `double`, never `float`, so the cast throws for every circle. A missing field throws too, because unboxing null fails. | a body with `"circles": [{"cx": 0.5, "cy": 0.5, "r": 0.25}]` | convert with `Convert.ToSingle`, like the origin and the vertices, so the circle reads as centre (0.5, 0.5) and radius 0.25 | high, not executed | Reader.ParsedCircleAsWritten and Reader.ParsedModelAsWritten (shown by Scenarios.CircleAsWrittenAlwaysFails, Reader.CirclesNeverLoadAsWritten and Scenarios.WheelCircleRejectedAsWritten) | Reader.ParsedCircle (proved by Writer.CirclesRoundTrip and Scenarios.WheelExample) |
