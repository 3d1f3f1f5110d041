# vtcomposite in Dafny

vtcomposite is a Node.js add-on. It composites several Mapbox Vector Tiles into one tile for a requested position `(z, x, y)`. This project models its core and proves properties of that model:

- **Argument validation.** `NAN_METHOD(composite)` checks the JavaScript arguments: the callback, then the `tiles` array item by item, then the map request object. It then queues a worker with a baton of validated tiles.
- **The worker.** `CompositeWorker::Execute` takes each tile that contains the requested tile, in caller order, and inflates it when it carries a gzip or zlib signature. It parses the tile and adds every layer whose name is not taken yet; the first layer of a name wins.
  - A layer from a tile at the requested zoom is copied as it is.
  - A layer from a lower zoom is rebuilt feature by feature, scaled by the zoom factor `2^(Z - z)` and clipped to the box `[(dx, dy), (dx + 4096, dy + 4096)]`.
  - The first exception ends the run: its message is recorded and nothing is serialized.
- **The re-encoding of one feature.** This is `overzoomed_feature_builder` and its point, line string and polygon handlers. Each point is mapped to `(x*zf - dx, y*zf - dy)`.
  - Points outside the closed clip box are dropped.
  - Lines and rings lose consecutive repeated points.
  - Lines are clipped.
  - Rings are skipped, written whole or clipped, depending on the extent of the ring and on whether the last outer ring met the box.
- **The libdeflate wrappers.** `deflate.hpp` has stream signature detection (`is_gzip`, `is_zlib`, `is_compressed`) and the `Decompressor`, with its retry loop that grows the output buffer. It also has the `Compressor`.

Layout:

| file | module | models |
|---|---|---|
| `wrappers.dfy` | `Wrappers`, `Ints` | `Option`, `Result`, `Min`/`Max` |
| `deflate.dfy` | `Deflate` | `src/deflate.hpp` |
| `geometry.dfy` | `Geometry` | points, boxes, the zoom transform, repeated-point removal, ring extent |
| `feature_builder.dfy` | `FeatureBuilder` | `src/feature_builder.hpp` |
| `validation.dfy` | `Validation` | `NAN_METHOD(composite)` in `src/vtcomposite.cpp` |
| `composite.dfy` | `Composite` | `CompositeWorker::Execute` in `src/vtcomposite.cpp` |

Modelling choices:

- **Foreign code as function parameters.** Code the core calls into that is not part of this model is a function parameter. Where the model relies on a promise of that code, the promise is stated as a precondition:
  - libdeflate's entry points: they never write more than the space they were given (`Deflate.WritesWithin`).
  - boost::geometry's `intersection`: its result lies in the box (`FeatureBuilder.ClipRingWithin`, `FeatureBuilder.ClipLinesWithin`). This is assumed only by the lemmas that are about containment.
  - `within_target`: it only accepts tiles at or above the requested zoom (`Composite.TilesBelowTarget`).
  - Also parameters: `displacement`, gzip-hpp's decompressor, and vtzero's parser and serializer.
- **Caller buffers.** An output buffer that the C++ code resizes in place through a reference is an input value and an output value.
- **Handlers.** The handlers that vtzero drives are classes whose fields are updated in place. The drivers (`CollectPoints`, `CollectLineStrings`, `DecodeRing`, `DecodePolygon`) call their callbacks in the order vtzero's decoder does. Each driver is proved equal to a specification function over the decoded geometry (`Covered`, `KeptParts`, `RingStep`, `PolygonRun`). The properties are proved about those functions.
- **Exceptions.** A C++ exception is an `Err` (or `Some(message)`) that carries its message.

Behaviours of the code worth knowing:

- The clip box is closed, because `covered_by` and `intersects` include the boundary. A point that lands exactly on the far edge of the tile is kept (`FeatureBuilder.FarCornerIsKept`).
- The map request object is checked with the same messages as a tile, e.g. "item in 'tiles' array does not include a 'z' value", as written at src/vtcomposite.cpp:300-350.
- `Execute` tests a tile for compression with gzip-hpp's `gzip::is_compressed`, which is not part of this model. It is taken to be the same two-byte signature test as `is_compressed` in `src/deflate.hpp`, so `Composite.Decoded` uses `Deflate.IsCompressed`.
- A feature is re-encoded only through the parameter `Env.reencode`. `CompositeWorker::Execute` calls `extract_geometry` and a `feature_builder` visitor, which are not part of this model. `FeatureBuilder.OverzoomedFeatureBuilder` models the builder that `feature_builder.hpp` defines.

## Model

| member | source | states |
|---|---|---|
| `Deflate.IsZlib` | src/deflate.hpp:13-20 | An input is a zlib stream exactly when it has more than two bytes and its first two bytes are one of the four listed zlib heads. |
| `Deflate.IsGzip` | src/deflate.hpp:22-25 | An input is a gzip member exactly when it has more than two bytes and starts with 0x1F 0x8B. |
| `Deflate.IsCompressed` | src/deflate.hpp:13-30 | An input counts as compressed exactly when it has more than two bytes and its first two bytes are one of the five listed gzip/zlib signatures. |
| `Deflate.FormatsDisjoint` | src/deflate.hpp:13-31 | The gzip and zlib tests never both hold, and no input of two bytes or fewer counts as compressed. |
| `Deflate.ResultErrorOnlyOnFailure` | src/deflate.hpp:159-170 | A result code raises no exception exactly when it is success. Short output, bad data and any other failure each raise their own message. |
| `Deflate.AsWrittenRetryNeverGrows` | src/deflate.hpp:155-156 | With the growth formula as written and capacity equal to size, a buffer below the limit keeps its size after any number of retries. |
| `Deflate.Grow` | src/deflate.hpp:155-156 | Corrected growth: the next size never exceeds the limit and is strictly larger than a positive size below the limit. |
| `Deflate.RetryStaysWithinLimit` | src/deflate.hpp:140-157 | With the corrected growth, the retry loop stops at a size between the first guess and the limit. There libdeflate answered something other than insufficient space. It gives up only when even the limit was too small. |
| `Deflate.Decompressor.constructor` | src/deflate.hpp:109-117 | The output limit defaults to 2147483648 bytes. |
| `Deflate.Decompressor.Apply` | src/deflate.hpp:131-172 | The first guess is `min(4*size, max)`. The buffer never exceeds `max`. The outcome is the one at the end of the retry sequence: the limit message when exhausted; otherwise the result-code message, or the decompressed bytes on success. |
| `Deflate.Decompressor.Decompress` | src/deflate.hpp:119-129 | Gzip input goes through the gzip routine and zlib input through the zlib routine. Any other input leaves the output unchanged and raises nothing. |
| `Deflate.Compressor.constructor` | src/deflate.hpp:50-60 | Level 6 and an input limit of 2000000000 bytes by default. |
| `Deflate.Compressor.Compress` | src/deflate.hpp:62-89 | An input over the limit raises the size message with the output untouched. A zero-byte compression raises "actual_compressed_size 0" after the output has grown to the bound, if the bound is larger. Otherwise the output is exactly the compressed bytes. |
| `Geometry.TransformInjective` | src/feature_builder.hpp:39-40 | With a non-zero zoom factor, distinct decoded points map to distinct output points. |
| `Geometry.CoveredMembers` | src/feature_builder.hpp:37-46 | A point is kept exactly when it is an input point lying in the closed box. |
| `Geometry.CoveredAppend` | src/feature_builder.hpp:37-46 | Filtering by the box keeps input order: it distributes over concatenation. |
| `Geometry.DedupStep` | src/feature_builder.hpp:77-88 | Seen one point at a time, a point is kept when it is the first one or differs from the point before it. |
| `Geometry.DedupShape` | src/feature_builder.hpp:77-88 | Repeated-point removal keeps the first and the last point, loses no point value, and leaves no two equal neighbours. |
| `Geometry.DedupKeepsNoRepeats` | src/feature_builder.hpp:77-88 | A sequence without repeated neighbours is left as it is. |
| `Geometry.DedupIdempotent` | src/feature_builder.hpp:77-88 | Removing repeated points twice is the same as removing them once. |
| `Geometry.DedupMoves` | src/feature_builder.hpp:253-271 | More than one point survives exactly when some point differs from the first one. |
| `Geometry.KeptPartHasNoRepeats` | src/feature_builder.hpp:77-88 | With a non-zero zoom factor, no two neighbouring output points of a line or ring are equal. |
| `Geometry.BoundsTight` | src/feature_builder.hpp:119-141 | The running extent covers every kept point, and each of its four sides is reached by a kept point. |
| `Geometry.BoundsSameMembers` | src/feature_builder.hpp:119-141 | The running extent depends only on which points a ring holds, not on their order; so reversing a ring in place keeps its extent. |
| `Geometry.ReverseMembers` | src/feature_builder.hpp:166-173 | Reversing a ring keeps exactly its points, and reversing twice restores it. |
| `Geometry.TransformAllAppend` | src/feature_builder.hpp:39-41 | Transforming one more point appends its transform. |
| `FeatureBuilder.PointHandler.constructor` | src/feature_builder.hpp:24-31 | The handler appends to the caller's multi-point, with the given displacement, zoom factor and box. |
| `FeatureBuilder.PointHandler.PointsPoint` | src/feature_builder.hpp:37-46 | The transformed point is appended when it lies in the closed box; otherwise nothing changes. |
| `FeatureBuilder.CollectPoints` | src/feature_builder.hpp:232-233 | The collected multi-point is exactly the transformed input points that lie in the box, in input order. |
| `FeatureBuilder.LineStringHandler.constructor` | src/feature_builder.hpp:62-68 | The handler starts with no previous point, at (0, 0). |
| `FeatureBuilder.LineStringHandler.LinestringBegin` | src/feature_builder.hpp:70-75 | Exactly one empty part is appended, earlier parts are unchanged, and the next point counts as first. |
| `FeatureBuilder.LineStringHandler.LinestringPoint` | src/feature_builder.hpp:77-88 | The transformed point is appended to the last part exactly when it is the first of its part or its decoded coordinates differ from the last kept point. |
| `FeatureBuilder.CollectLineStrings` | src/feature_builder.hpp:245-246 | Each decoded part becomes exactly its transformed points without repeated neighbours, one output part per input part. |
| `FeatureBuilder.WriteLineStrings` | src/feature_builder.hpp:253-273 | Every clipped line of more than one point is written without repeated neighbours. `valid` holds exactly when the last clipped line has a point different from its first. |
| `FeatureBuilder.WrittenLinesShape` | src/feature_builder.hpp:253-274 | Written lines have no repeated neighbours. The commit test is the same as the last clipped line keeping two or more points. |
| `FeatureBuilder.WrittenLinesWithinBox` | src/feature_builder.hpp:248-272 | Lines clipped into the box stay in the box once repeated points are removed. |
| `FeatureBuilder.RingOutput` | src/feature_builder.hpp:153-184 | Corrected ring_end output. Nothing for a skipped ring or one of three points or fewer. The ring whole when its extent lies within the box. Otherwise the long rings of the clipped polygons, turned back for an inner ring. |
| `FeatureBuilder.RingOutputAsWritten` | src/feature_builder.hpp:153-184 | ring_end output with the shortcut condition as written: the ring is written whole when its extent covers the box. |
| `FeatureBuilder.AsWrittenKeepsPointsOutsideBox` | src/feature_builder.hpp:155-162 | Under the written condition, a ring larger than the box on all sides is written unclipped, including points outside the box. |
| `FeatureBuilder.RingOutputLong` | src/feature_builder.hpp:153-181 | Every ring ring_end writes has more than three points. |
| `FeatureBuilder.RingOutputWithinBox` | src/feature_builder.hpp:153-184 | For the corrected ring_end, and when clipping keeps to the box, every ring ring_end writes lies in the clip box. The code as written does not promise this; see Findings. |
| `FeatureBuilder.ClippedRingsWithin` | src/feature_builder.hpp:165-182 | Rings taken from clipped polygons, reversed or not, stay in the box. |
| `FeatureBuilder.LongRingsLong` | src/feature_builder.hpp:174-181 | Only input rings of more than three points are written. |
| `FeatureBuilder.ClippedRingsLong` | src/feature_builder.hpp:170-182 | Rings written from clipped polygons have more than three points. |
| `FeatureBuilder.WriteLongRings` | src/feature_builder.hpp:174-181 | The loop over one clipped polygon writes exactly its rings of more than three points, in order. |
| `FeatureBuilder.WriteClipped` | src/feature_builder.hpp:165-182 | The loops over the clipped polygons write exactly their long rings, in order and orientation-corrected. |
| `FeatureBuilder.PolygonHandler.constructor` | src/feature_builder.hpp:104-110 | The handler starts with extent ((0,0),(0,0)), not skipping, not valid, nothing written. |
| `FeatureBuilder.PolygonHandler.RingBegin` | src/feature_builder.hpp:112-117 | The current ring is cleared and the next point counts as first. Extent, skip, valid and the written rings are kept. |
| `FeatureBuilder.PolygonHandler.RingPoint` | src/feature_builder.hpp:119-141 | The point is kept under the same rule as a line point. The extent stays the bounding box of the current ring's kept points. |
| `FeatureBuilder.PolygonHandler.RingEnd` | src/feature_builder.hpp:143-185 | An outer ring sets skip exactly when its extent misses the box. valid becomes true once an outer ring meets it. The rings written are `RingOutput` of the finished ring. An inner ring that is clipped is reversed in place first. |
| `FeatureBuilder.DecodeRing` | src/feature_builder.hpp:112-185 | One decoded ring through begin, points and end is one `RingStep`. |
| `FeatureBuilder.DecodePolygon` | src/feature_builder.hpp:279-282 | Decoding a polygon's rings through a fresh handler gives `PolygonRun` from the initial state. |
| `FeatureBuilder.PolygonRunStep` | src/feature_builder.hpp:112-185 | A run over one more ring is one more ring step. |
| `FeatureBuilder.PolygonRunAppend` | src/feature_builder.hpp:112-185 | A run over two stretches of rings is the second run started where the first ended. |
| `FeatureBuilder.PolygonRunRingsLong` | src/feature_builder.hpp:153-181 | Every ring a polygon feature receives has more than three points. |
| `FeatureBuilder.PolygonRunWithinBox` | src/feature_builder.hpp:143-185 | For the corrected ring_end, and when clipping keeps to the box, every ring a polygon feature receives lies in the box. The code as written does not promise this; see Findings. |
| `FeatureBuilder.PolygonRunValidStep` | src/feature_builder.hpp:145-151 | After one more ring the handler is valid exactly when it was valid before or that ring is outer and its extent meets the box. |
| `FeatureBuilder.PolygonRunValid` | src/feature_builder.hpp:143-189 | The handler ends valid exactly when it started valid or some outer ring's extent met the box. |
| `FeatureBuilder.RingStepWhileSkipping` | src/feature_builder.hpp:145-153 | A non-outer ring while skipping, or an outer ring that misses the box, leaves skip set and writes nothing. |
| `FeatureBuilder.SkippedRingsWriteNothing` | src/feature_builder.hpp:145-153 | While skip is set, inner and invalid rings write nothing and skip stays set. |
| `FeatureBuilder.MissedOuterRingSkipsFollowers` | src/feature_builder.hpp:145-153 | An outer ring whose extent misses the box writes nothing, and neither do the non-outer rings after it. |
| `FeatureBuilder.ReencodedFacts` | src/feature_builder.hpp:230-286 | A point feature is emitted exactly when some transformed point lies in the box, and it holds only such points. A polygon feature holds only rings of more than three points. |
| `FeatureBuilder.ReencodedWithinBox` | src/feature_builder.hpp:230-286 | When clipping keeps to the box, no emitted point or line leaves the clip box, and, for the corrected ring_end, no emitted ring does either. The code as written lets rings out; see Findings. |
| `FeatureBuilder.Reencoded` | src/feature_builder.hpp:230-306 | Re-encoding emits at most one feature, of the input's geometry type, with the input's id and properties. An unknown type emits nothing. |
| `FeatureBuilder.FarCornerIsKept` | src/feature_builder.hpp:37-46 | The box is closed: a point zoomed onto the far corner (4096, 4096) is kept. |
| `FeatureBuilder.OverzoomedFeatureBuilder.constructor` | src/feature_builder.hpp:211-220 | The builder writes to the given layer builder with the given box, displacement and zoom factor. |
| `FeatureBuilder.OverzoomedFeatureBuilder.ApplyGeometryPoint` | src/feature_builder.hpp:230-241 | The layer gains exactly the re-encoded point feature, or nothing when no point survives. |
| `FeatureBuilder.OverzoomedFeatureBuilder.ApplyGeometryLinestring` | src/feature_builder.hpp:243-276 | The layer gains exactly the re-encoded line feature, or nothing when clipping is empty or the last line does not move. |
| `FeatureBuilder.OverzoomedFeatureBuilder.ApplyGeometryPolygon` | src/feature_builder.hpp:277-286 | The layer gains exactly the re-encoded polygon feature, or nothing when no outer ring met the box. |
| `FeatureBuilder.OverzoomedFeatureBuilder.Apply` | src/feature_builder.hpp:288-306 | Dispatch by geometry type; the layer gains exactly `Reencoded` of the feature. |
| `Validation.CoordinateAccepts` | src/vtcomposite.cpp:237-283 | A coordinate is accepted exactly when present, a number and non-negative. It is then cast to 32 bits. A negative one gets the "must not be less than zero" message. |
| `Validation.Validate` | src/vtcomposite.cpp:184-355 | Only a missing callback throws, with the callback message. A worker is queued only with a non-empty tiles array whose items all validate, one tile per item, and a validated request. |
| `Validation.CheckArguments` | src/vtcomposite.cpp:184-355 | The entry point's outcome (exception, callback error or queued baton) is `Validate` of its arguments. |
| `Validation.FirstFailureStops` | src/vtcomposite.cpp:212-290 | Once a prefix of the tiles array fails, the whole array fails with the same message. |
| `Validation.ValidateTilesAll` | src/vtcomposite.cpp:212-290 | The array is accepted exactly when every item is. The validated tiles then correspond item by item. |
| `Validation.FirstFailingTileDecides` | src/vtcomposite.cpp:212-290 | The message is that of the first failing item, in array order. |
| `Validation.EmptyTilesRejected` | src/vtcomposite.cpp:205-208 | An empty tiles array yields "'tiles' array must be of length greater than 0". |
| `Validation.ValidateScheduled` | src/vtcomposite.cpp:184-355 | An exception is thrown exactly when the last argument is not a function. A worker is queued exactly when the tiles array is non-empty, every item is acceptable and the request is acceptable. |
| `Validation.NegativeCoordinateRejected` | src/vtcomposite.cpp:247-283 | A tile with a good buffer and a negative coordinate is refused; a negative z gets the z message. |
| `Composite.Pow2IsOneOnlyAtZero` | src/vtcomposite.cpp:116-126 | The zoom factor is at least one, and one exactly when the zoom difference is zero. |
| `Composite.Decoded` | src/vtcomposite.cpp:105-114 | A tile without a gzip/zlib signature is parsed as it is. Only a tile with a signature can fail to inflate. |
| `Composite.Feed` | src/vtcomposite.cpp:118-145 | Adding layers never drops or changes a name or output layer already taken, and each new name brings exactly one new output layer. |
| `Composite.Run` | src/vtcomposite.cpp:101-151 | Over the whole tile loop, no name or output layer already taken is dropped or changed, and each new name brings exactly one new output layer. |
| `Composite.Composited` | src/vtcomposite.cpp:88-159 | When the tile loop raises an exception, the worker ends with that exception's message and serializes nothing. |
| `Composite.RebuildLayer` | src/vtcomposite.cpp:128-143 | The feature loop yields `RebuildFeatures`: the re-encoded features in order, or the first exception. |
| `Composite.AddTile` | src/vtcomposite.cpp:101-146 | One pass of the tile loop is `TileStep`. A rejected tile changes nothing. Otherwise the tile is inflated if compressed and parsed, and each layer whose name is new is copied or rebuilt. |
| `Composite.CompositeWorker.constructor` | src/vtcomposite.cpp:83-86 | The worker starts with an empty output and no error. |
| `Composite.CompositeWorker.Execute` | src/vtcomposite.cpp:88-159 | On success the output is the serialized tile and no error is set. On an exception the error holds its message and the output is untouched. |
| `Composite.FirstRebuildFailureStops` | src/vtcomposite.cpp:130-142 | A failing feature ends the layer with its message. |
| `Composite.FirstFeedFailureStops` | src/vtcomposite.cpp:118-145 | A failing layer ends the tile with its message. |
| `Composite.FirstRunFailureStops` | src/vtcomposite.cpp:88-159 | A failing tile ends the run with its message; later tiles change nothing. |
| `Composite.FirstEntriesShape` | src/vtcomposite.cpp:118-123 | The winning layers carry exactly the names seen, each once. Each winner is the earliest layer with its name. |
| `Composite.FeedIsFirstWins` | src/vtcomposite.cpp:118-145 | Adding layers one by one from an empty tile is the same as emitting the first layer of every name in order. |
| `Composite.EmitAllNames` | src/vtcomposite.cpp:120-143 | Every output layer carries the name of the layer it came from. |
| `Composite.FeedAppend` | src/vtcomposite.cpp:101-145 | Adding two stretches of layers is adding the second after the first. |
| `Composite.RunIsFeed` | src/vtcomposite.cpp:101-151 | When every accepted tile inflates and parses, the run is all their layers fed in tile order. Otherwise the run fails. |
| `Composite.CompositedFirstWins` | src/vtcomposite.cpp:88-159 | A successful composite serializes the first layer of every name over the accepted tiles in caller order, with no name twice. |
| `Composite.RejectedTileChangesNothing` | src/vtcomposite.cpp:101-151 | A tile that does not contain the requested tile contributes nothing and the run goes on. |
| `Composite.SameZoomCopiesLayers` | src/vtcomposite.cpp:116-139 | A tile at the requested zoom has its layers copied verbatim, and only such a tile does. The clip box is exactly 4096 wide and tall. |

## Left out

- `Deflate.Decompressor.Apply`: does not model the stalled loop of the growth formula as written, because it uses the corrected growth; see Findings. The same holds for `Deflate.Retry` and its lemma `Deflate.RetryStaysWithinLimit`, which promise termination only for the corrected growth. `Apply` requires a non-empty input: its only caller passes inputs of more than two bytes. `size * 4` is not checked for overflow.
- `FeatureBuilder.PolygonHandler.RingEnd`: uses the corrected shortcut condition; see Findings.
- `FeatureBuilder.DecodeRing`: equals one `RingStep`, which uses the corrected ring_end.
- `FeatureBuilder.DecodePolygon`: equals `PolygonRun`, whose ring steps use the corrected ring_end.
- `FeatureBuilder.Reencoded`: its polygon case uses the corrected ring_end. So do `FeatureBuilder.RingStep` and `FeatureBuilder.PolygonRun`, which it is built on.
- `FeatureBuilder.OverzoomedFeatureBuilder.ApplyGeometryPolygon`: the rings it adds come from the corrected ring_end.
- `FeatureBuilder.OverzoomedFeatureBuilder.Apply`: its polygon case inherits the corrected ring_end.
- `FeatureBuilder.PolygonRunWithinBox`: holds for the corrected ring_end only; see Findings.
- `FeatureBuilder.ReencodedWithinBox`: its ring clause holds for the corrected ring_end only; see Findings.
- `Composite.Emit`: a layer copied from a tile at the requested zoom is kept as a value until serialization, and the same holds for `Composite.AddTile` and `Composite.CompositeWorker.Execute`. In the source, `add_existing_layer` (src/vtcomposite.cpp:126) keeps only a view of the layer's bytes, and vtzero reads those bytes at `serialize` (line 153). For a gzip or zlib tile those bytes live in `buffer`, which is declared inside the loop body (lines 104-108) and destroyed when the iteration ends. So the source serializes such a layer from freed memory, while the model returns that layer's bytes. The model does not capture this lifetime fault.
- The libdeflate compressor and decompressor handles, their allocation failures, and the `Compressor`'s libdeflate bound are foreign code. They are parameters or not modelled.
- Integer widths are not modelled:
  - The 32-bit `int` coordinates and zoom factor. The `1 << (Z - z)` shift overflows for zoom differences of 31 or more.
  - `static_cast<int>` of written points.
  - The `std::size_t` arithmetic.
- JavaScript numbers are integers here. V8's `IntegerValue` conversion of doubles, and properties of arrays, functions and buffers, are not modelled.
- v8/Nan marshalling, `TileObject`'s persistent buffer handle, `Nan::AsyncWorker` scheduling, `HandleOKCallback` and the callback invocation are host-runtime plumbing.
- `within_target`, `displacement`, `extract_geometry`, `zoom_coordinates` and the `feature_builder` visitor called by `Execute` are not part of this model. They are fields of `Composite.Env`.
- vtzero's parsing, layer copying, property mapping (`copy_properties`) and serialization are foreign code.
- The parser parameter `Env.parse` is all-or-nothing: it decodes every layer and every feature of a tile before any layer is added. vtzero reads lazily, through `next_layer` and `for_each_feature` (src/vtcomposite.cpp:117-142). So the outcome can differ in two cases:
  - A rebuilt layer fails to re-encode before a malformed later layer is read. The code reports the re-encoding failure; the model reports the parser's.
  - A layer is copied (zoom factor 1) or skipped (name already taken). The code never decodes its features, so their malformed geometry raises nothing. The model's parser may still fail on them.
- `add_linestring` declares the clipped line's full point count, while repeated points are not written. The declared count is not modelled.
- The no-op callbacks `points_begin`, `points_end` and `linestring_end` are not modelled, and neither are the `reserve` calls.
- boost::geometry's `intersection` is a parameter, and no topology property is claimed for it.
- The warning written to standard error for a rejected tile is not modelled.
- `Composite.AddTile` computes the displacement once per tile, where the source's `Execute` computes it once per feature (src/vtcomposite.cpp:138). This is the same value, because it depends only on the zoom factor and the requested tile.

## Findings

| source | as written | input that shows it | evidently intended | confidence | as-written member | corrected member |
|---|---|---|---|---|---|---|
| src/deflate.hpp:155-156 | `new_size = min((capacity << 1) - size, max)`. Right after `resize(n)` of an empty vector, capacity equals size, so the new size equals the old one. | Any input whose inflated size exceeds `min(4*size, max)` with `4*size < max`. libdeflate keeps answering insufficient space, the buffer never grows and the loop never ends. | Double the buffer, capped at `max`, until it reaches `max` and the limit exception fires. | not executed | `Deflate.AsWrittenRetryNeverGrows` | `Deflate.Grow`, `Deflate.Retry`, `Deflate.RetryStaysWithinLimit`, `Deflate.Decompressor.Apply` |
| src/feature_builder.hpp:155-158 | A ring is written unclipped when its extent covers the clip box, although the comment says to clip only when the ring is not fully within the box. | Box ((0,0),(10,10)) and an outer ring (-5,-5),(15,-5),(15,15),(-5,15),(-5,-5): the ring is written whole, with points outside the box. | Write the ring whole when its extent lies within the box; clip it otherwise. | not executed | `FeatureBuilder.RingOutputAsWritten`, `FeatureBuilder.AsWrittenKeepsPointsOutsideBox` | `FeatureBuilder.RingOutput`, `FeatureBuilder.RingOutputWithinBox`, `FeatureBuilder.PolygonRunWithinBox`, `FeatureBuilder.ReencodedWithinBox` |
