# GPURayTracer core, modelled in Dafny

A functional model of the CPU-side core of a GPU path tracer: the material
table and object list of the scene, the Wavefront OBJ/MTL loaders, the
triangle records, the one-time upload of the scene to the GPU, the
resolution-provisioning state machine with its high-water-mark buffers, the
progressive-sample controller of the main loop together with the per-frame
decisions of `render`, and the image serialisers (`exportBMP`, `exportRGBA8`
and the raw-float post-processing script).

Every OpenGL object is a name drawn from a counter, so a created name is
never 0. Creations, deletions, compute dispatches and the random-direction
fill are recorded as events in a log. Most undefined behaviour in the source
is an explicit error, `Fault.Undefined`: an uninitialised `material_index`
read at flush time, an out-of-range OBJ index, a division by a zero height,
and more triangles than an `unsigned int` counts. One case is a precondition
instead. The `int` product `x * y` of a resolution must not overflow, and
`Resolution.ResOk` also asks for non-negative sizes (see "Left out"). A
`std::out_of_range` thrown by `substr(7)` on a six-character
`usemtl`/`newmtl` line is `Fault.OutOfRange`. Floats are exact reals, and
the floating-point collaborators are function parameters: `sscanf`,
`glm::normalize`, the RGBA8 cast, and the script's luma normalisation.

Modules, in dependency order:

- `Words`: unsigned and signed 32-bit words, bytes, and little-endian encodings.
- `Vectors`: the part of glm the core uses.
- `Results`: `Option`, `Result` and `Fault`.
- `Chunks`: row-major layout of equal-length chunks.
- `Geometry`: 3Dobjects.hpp.
- `SceneTables`: the material table and object list of Scene.hpp.
- `Wavefront`: the OBJ and MTL loaders.
- `Device`: `st_RTCS_data`, `MappedBuffer`, the uploads and `finalizeObjects`.
- `Resolution`: `adaptResolution` and `generateRandomUnitVectors`.
- `Render`: `render` and `traceScene`.
- `Controller`: `mainLoop` and `finalRender`.
- `Export`: `exportBMP` and `exportRGBA8`.
- `PostProcess`: fvec4ToRGB8.py.

A static frame with no change of mode renders nothing and leaves the sample
counter alone (RayTracer.cpp:122). Progressive accumulation happens only
while the middle button is held and in `finalRender` (`Controller.ModeStep`,
`Controller.RestTracesOnce`, `Controller.PreviewAccumulates`).

Two inconsistencies of the code are modelled as written:

- The preview target is 180 rows high, while every moving frame is traced
  and dispatched over 240 rows (`Render.PreviewOverrunsTarget`).
- A static frame without a change of mode does nothing at all.

## Model

| member | source | states |
|---|---|---|
| Words.IncU32 | RayTracer.cpp:137 | `sample++` on an `unsigned int`: one more, except that 2^32-1 wraps to 0 |
| Words.ToU32 | Scene.cpp:115-117 | conversion to `unsigned int`: identity on [0, 2^32), +2^32 on [-2^32, 0), never larger for non-negative input, congruent modulo 2^32 |
| Words.LE16 | Scene.cpp:31-32 | a packed `uint16_t` field is two bytes that decode back to the value |
| Words.LE32 | Scene.cpp:19-39 | a packed `uint32_t` field is four bytes that decode back to the value |
| Words.LEI32 | Scene.cpp:29-30 | a packed `int32_t` field is four two's-complement bytes that decode back to the signed value |
| Vectors.WithRgb | Scene.cpp:507 | writing `.r .g .b` of a four-component field leaves `.a` as it was |
| Vectors.CrossOrthogonal | 3Dobjects.hpp:46 | the cross product is orthogonal to both edges |
| Geometry.DefaultTriangle | 3Dobjects.hpp:37 | the default triangle has zero position, edges, normals and UVs (so all three corners at the origin); tangents, true normal and material are whatever memory held |
| Geometry.MakeTriangle | 3Dobjects.hpp:39-55 | the corners are recovered as p0, p0+u, p0+v = (p0, p1, p2); the true normal is cross(u, v) and orthogonal to both edges; normals in order; each tangent is the normalised UV gradient with its component along that corner's normal removed; material as given |
| Geometry.MakeTriangleTexCorners | 3Dobjects.hpp:47 | the texture corners are recovered as (t0, t1, t2) from tex_p and the two UV edges |
| Geometry.RejectOrthogonal | 3Dobjects.hpp:50-54 | before normalisation each tangent is orthogonal to its unit corner normal |
| Geometry.Assign | 3Dobjects.hpp:57-75 | copy-assignment makes the target equal to the source field for field |
| Geometry.DefaultTriangleModel | 3Dobjects.hpp:108 | the default geometry record is all zero |
| Geometry.MakeTriangleModel | 3Dobjects.hpp:109-111 | the geometry record stores normal, position and spans unchanged |
| Geometry.DefaultTriangleShading | 3Dobjects.hpp:125-130 | the default shading record has material 0 and zero normals, tangents and UVs |
| Geometry.MakeTriangleShading | 3Dobjects.hpp:131-133 | the shading record stores each corner's normal and tangent, the UVs and the material unchanged |
| SceneTables.EmptyTableValid | Scene.hpp:80-82 | the empty table satisfies the table invariant |
| SceneTables.GetMaterialIndex | Scene.hpp:37-42 | an unknown name gives -1 and a known one its mapped index; on a valid table -1 means exactly "unknown", and any other answer addresses a record |
| SceneTables.GetMaterial | Scene.hpp:44-50 | a known name returns its index with the table unchanged; a new name appends one zero record and maps to the old size; earlier names and records are kept; validity is preserved |
| SceneTables.AppendValid | Scene.hpp:48-49 | appending a record under a new name keeps indices in range, distinct and one per record |
| SceneTables.GetMaterialsKeeps | Scene.hpp:44-50 | once registered, a name keeps its index, and the records before it, through any later run of lookups |
| SceneTables.LookupStable | Scene.hpp:37-50 | after `getMaterial(n)` returns i, `getMaterialIndex(n)` answers i after any later lookups |
| SceneTables.GetMaterialsFromEmpty | Scene.hpp:44-50 | from the empty table, a run of lookups registers exactly the names asked for, one record per distinct name, and the table is valid |
| SceneTables.GetMaterialsGrowth | Scene.hpp:44-50 | a run of lookups adds exactly its names to the key set and preserves validity |
| SceneTables.GetObject | Scene.hpp:33-35 | always appends one fresh empty object (no material yet), even for a repeated name; earlier objects unchanged; the count of that name grows by one |
| Wavefront.CStr | Scene.cpp:501 | `c_str()` of a string: the longest NUL-free prefix, stopping at the first NUL |
| Wavefront.FaceTriangle | Scene.cpp:436-440 | a face becomes the triangle over positions and normals at 1-based index - 1, with the object's material converted to `unsigned` |
| Wavefront.FlushFaces | Scene.cpp:435-441 | defined iff there are no faces, or the material is set and every index is in range; then one triangle per face, in order, all with the material at flush time |
| Wavefront.Flush | Scene.cpp:434-442 | without a current object the faces are dropped; otherwise only the current object changes, and its triangles are extended by the flushed faces |
| Wavefront.ObjStep | Scene.cpp:430-472 | short lines skipped; `o` flushes and appends a fresh current object; only `o` changes the list's length or the current object, and others touch only the current object; `usemtl` only inside an object, storing the lookup-only index, throwing on a six-character line; `f` only buffers |
| Wavefront.ObjLines | Scene.cpp:429-473 | the read loop keeps "the current object is the last one" |
| Wavefront.ObjLinesCount | Scene.cpp:433-444 | each object line, and nothing else, adds exactly one object |
| Wavefront.ParseObjCount | Scene.cpp:429-482 | a successful load appends one object per object line |
| Wavefront.ObjStepKeepsBase | Scene.cpp:433-472 | one line never alters objects that existed before the load |
| Wavefront.ObjLinesKeepBase | Scene.cpp:429-473 | the read loop never alters objects that existed before the load |
| Wavefront.ParseObjKeepsScene | Scene.cpp:429-482 | loading a model leaves the scene's earlier objects as a prefix of the result |
| Wavefront.NoObjectLinesNoChange | Scene.cpp:429-473 | without object lines the loop succeeds and adds no object: faces before the first `o` are discarded |
| Wavefront.ParseObjWithoutObjects | Scene.cpp:474-482 | a file without object lines leaves the object list exactly as it was |
| Wavefront.ApplyKey | Scene.cpp:506-520 | Kd/Ks/Ke write the rgb of albedo, specular_roughness and emission_ior, keeping .a; Ni writes emission_ior.a; Ns writes specular_roughness.a; any other key changes nothing |
| Wavefront.SelectMaterial | Scene.cpp:500-502 | `newmtl` throws on a six-character line, otherwise does lookup-or-create on the C-string name and makes that record current, keeping earlier names |
| Wavefront.ApplyToCurrent | Scene.cpp:504-521 | a key line rewrites only the current record, if any; names and the current record are unchanged; a `newmtl` line matches no key |
| Wavefront.MtlStep | Scene.cpp:497-521 | lines of length <= 3, and lines before any `newmtl`, are ignored; `newmtl` is lookup-or-create and becomes current; other lines rewrite the current record by key; the only error is the six-character `newmtl` |
| Wavefront.MtlLines | Scene.cpp:496-522 | the read loop keeps the table valid and the current index in range |
| Wavefront.ReadWFMaterial | Scene.cpp:488-526 | a file that cannot be opened gives false with the table untouched; otherwise true and a valid table |
| Wavefront.MtlLinesRegisters | Scene.cpp:496-522 | after a successful read every declared material name has a record, and earlier names keep their index |
| Wavefront.NewmtlRegisters | Scene.cpp:500-502 | a `newmtl` line with a name registers that name |
| Wavefront.AddWavefrontModel | Scene.cpp:416-486 | false and no change when either file is missing; on success the table is valid, declares every `newmtl` name, earlier objects are kept, and one object is added per object line |
| Device.MapBuffer | Scene.cpp:48-56 | storage is created, under a fresh non-zero name, exactly when the handle is 0 and the count positive; otherwise nothing changes |
| Device.MapBufferOnce | Scene.cpp:51-54 | mapping a buffer that was just created creates nothing more, whatever the count |
| Device.Flatten | Scene.cpp:122-127 | the flat triangle array holds as many triangles as all objects together |
| Device.FlattenAppend | Scene.cpp:122-127 | flattening one more object appends exactly its triangles |
| Device.FlattenIndex | Scene.cpp:122-127 | triangle j of object k sits at slot offset(k) + j: object order, then in-object order |
| Device.OffsetStep | Scene.cpp:122-127 | consecutive objects occupy consecutive, non-overlapping runs of slots |
| Device.UploadTriangles | Scene.cpp:114-127 | the `unsigned` triangle count is the wrapped sum of object sizes, and the slots hold the flattened triangles |
| Device.CopyMaterials | Scene.cpp:144-152 | the wrapped material count many slots, slot k holds material k, and all materials are copied while the count fits |
| Device.Groups64 | Scene.cpp:175 | ceil(n / 64): enough groups of 64 for n items, and no more than needed |
| Device.FinalizeObjects | Scene.cpp:154-184 | once initialised, nothing happens; otherwise it succeeds iff the triangle count fits `unsigned`, then it uploads flattened triangles and index-copied materials, creates the triangle buffer iff the handle was 0 and there are triangles, dispatches sort and draw-buffer passes over ceil(n/64) groups, and creates the material buffer iff its handle was 0 and the wrapped material count positive, always creates a fresh model buffer of three vertices per triangle, and sets `initialized`, leaving resolution, targets and ray buffer alone |
| Device.FinalizeOnce | Scene.cpp:168-184 | a second `finalizeObjects` is a no-op, whatever the scene holds by then |
| Device.FirstFinalizeUploads | RTCSBuffer.hpp:18-28 | from the initial record the first call always uploads, and a non-empty scene gets a fresh triangle buffer of its size |
| Device.InitialRtcsDataFacts | RTCSBuffer.hpp:18-28 | the record starts uninitialised, with zero resolutions, no triangles and all handles 0 |
| Resolution.InitialProvisioned | RTCSBuffer.hpp:19-20 | the initial state satisfies the ray-buffer invariant, and every handle in it is issued |
| Resolution.FillOrder | Scene.cpp:205-218 | the fill loop makes x*y*4 writes; the i-th goes to the wrapped slot i and is made for the unique in-bounds (x, y, z) with (x*height + y)*4 + z = i |
| Resolution.FillSlotsDistinct | Scene.cpp:205-218 | while x*y*4 fits the counter, the written slots are pairwise distinct and all below the number of writes |
| Resolution.GenerateRandomUnitVectors | Scene.cpp:186-220 | the buffer is recreated, under a fresh name, exactly when four directions per pixel exceed the capacity so far; capacity becomes the maximum; the fill runs iff the mapping is valid and stays within capacity; nothing else changes |
| Resolution.RandomCapacityGrows | Scene.cpp:189-201 | the random-direction capacity never shrinks and covers four directions per pixel |
| Resolution.PreviewTargetWidth | Scene.cpp:250 | the preview width is floor(180 * x / y), undefined for a zero height or a width beyond `int` |
| Resolution.RecreateTargets | Scene.cpp:240-252 | both targets are replaced by fresh, distinct names of the new size and of the preview size; nothing else changes |
| Resolution.RegrowRayBuffer | Scene.cpp:254-259 | the ray buffer is replaced by a fresh one of one record per pixel, and `buffer_res` is the new resolution |
| Resolution.Reallocate | Scene.cpp:239-260 | both targets recreated; the ray buffer regrown iff the new pixel count exceeds `buffer_res`, otherwise kept; the invariant holds afterwards |
| Resolution.ResizeTargets | Scene.cpp:234-261 | the resolution is always stored; the targets are kept iff the pixel count is unchanged and recreated otherwise; the ray buffer is regrown only on a change to more pixels than it holds |
| Resolution.AdaptResolution | Scene.cpp:234-269 | as ResizeTargets, keeping the invariant buffer_res area >= resolution area; the first call, and only that one, regenerates the random directions, to at least four per pixel |
| Resolution.SamePixelCountKeepsTargets | Scene.cpp:234-253 | 800x600 then 640x750 recreates nothing and stores the new resolution; 800x601 afterwards recreates both targets |
| Resolution.FirstAdaptProvisions | RTCSBuffer.hpp:19-20 | from the zero initial resolution, the first call with positive area provisions both targets, a ray buffer of that size and four random directions per pixel |
| Resolution.FirstResize | Scene.cpp:239-259 | from the initial state, a non-empty first resize allocates both targets and the ray buffer |
| Render.Groups8 | Scene.cpp:281 | ceil(n / 8): enough 8-wide work groups for n pixels, and no more than needed |
| Render.PreviewTraceWidth | Scene.cpp:298-299 | the traced width of a moving frame is floor(240 * width / height), undefined for a zero height or a width beyond `int` |
| Render.FirstTime | Scene.cpp:286-290 | only the first call provisions for the frame size; later calls leave the device untouched |
| Render.TraceSize | Scene.cpp:294-302 | static frames are traced at full size, moving ones at 240 rows and the scaled width |
| Render.PlanPass | Scene.cpp:285-314 | moving frames go to the preview target with recursion 4, static ones to the full target with recursion 12; regenerate iff static and sample a positive multiple of 4; SAMPLE = sample; SAMPLES = sample + 1 (wrapping); ceil(w/8) x ceil(h/8) groups over the traced size |
| Render.TracePass | Scene.cpp:308-311 | regenerates the random directions only if planned, then the last event is the ray-tracer dispatch over the planned groups |
| Render.Render | Scene.cpp:285-318 | defined iff provisioning and planning are; returns the planned pass; only the first call touches resolution and targets; the frame ends with the dispatch; a regeneration covers four directions per pixel, otherwise the buffer is kept |
| Render.PreviewOverrunsTarget | Scene.cpp:298-299 | a moving frame writes the 180-row preview target but dispatches over 240 rows, 60 too many; its traced width covers the target's width |
| Render.Regenerations | Scene.cpp:308-309 | over static samples 1..n, the random directions are regenerated n / 4 times |
| Controller.FinalRender | RayTracer.cpp:32-52 | static renders with samples s+1, ..., 127 in order, then a display and the export; the counter ends at max(s, 127) |
| Controller.FinalTracesIndex | RayTracer.cpp:39-41 | `finalRender` from s issues 127 - s renders (none from 127 on), the i-th with sample s + 1 + i |
| Controller.ModeStep | RayTracer.cpp:77-149 | `lastMoving` becomes this frame's mode; a static frame without a mode change does nothing; moving to static traces sample 0 and leaves 1; a drag with a button, any key, or a change from static to moving resets the count; the middle button held still traces at the current sample and increments it; the right button alone keeps it and rasterises; every rendering frame ends with a display of the new count |
| Controller.Frame | RayTracer.cpp:72-153 | a loop iteration is the mode step, followed when F2 is held by the final render from the resulting count, which ends at 127 or above |
| Controller.PreviewAccumulates | RayTracer.cpp:135-137 | n frames of holding the middle button still, after a moving frame, advance the counter by exactly n (mod 2^32), make two calls each, and trace samples s, s+1, ... in order |
| Controller.RestTracesOnce | RayTracer.cpp:122-149 | any number of frames at rest after moving make exactly one static trace, at sample 0, and leave the counter at 1; at rest after rest nothing happens |
| Export.ClampByte | Scene.cpp:396-398 | clamp-and-truncate: 0 at or below 0, 255 at or above 1, otherwise floor(255 c) |
| Export.HeadersRoundTrip | Scene.cpp:19-40 | the packed headers are 54 bytes and read back as "BM", offset 54, info size 40, the resolution, 1 plane, 24 bits, no compression and 2^24 colours used |
| Export.FileHeaderFields | Scene.cpp:20-25 | the file header reads back as "BM", size 0, reserved 0, offset 54 |
| Export.InfoGeometryFields | Scene.cpp:28-32 | the info header reads back with size 40, the width, the height, 1 plane and 24 bits |
| Export.InfoRestFields | Scene.cpp:33-38 | the remaining info fields read back as 0, 0, 0, 0, 2^24, 0 |
| Export.PixelArrayAsWritten | Scene.cpp:395-399 | the pixel bytes as written: three per pixel, (b, g, b), clamped |
| Export.ExportBmpAsWritten | Scene.cpp:377-404 | `exportBMP` as written: returns true; the headers, then exactly three clamped bytes per pixel in (b, g, b) order with no padding |
| Export.AsWrittenIgnoresRed | Scene.cpp:396-398 | images that differ only in red are written identically |
| Export.AsWrittenRedIsBlack | Scene.cpp:396-398 | a pure red 1x1 image is written as a black pixel |
| Export.AsWrittenRowsShort | Scene.cpp:395-399 | when 3*width is not a multiple of 4, the file is shorter than the padded pixel array its header implies |
| Export.ExportBmp | Scene.cpp:377-404 | corrected `exportBMP`: returns true; the headers, then height rows padded to a multiple of four bytes |
| Export.ExportBmpRoundTrip | Scene.cpp:377-404 | in the corrected file every pixel (x, y) reads back at its row's stride as its own clamped (r, g, b) |
| Export.ExportRgba8 | Scene.cpp:354-375 | four bytes per pixel: the three quantised channels, then 255 |
| PostProcess.Convert | res/final/fvec4ToRGB8.py:12-16 | the output holds exactly height * width * 3 bytes |
| PostProcess.ConvertIndex | res/final/fvec4ToRGB8.py:12-15 | output byte k of pixel (row, col) is channel k of input pixel (height-1-row, col), normalised, clipped to [0, 1] and scaled: rows flipped, columns kept, alpha dropped |
| PostProcess.Run | res/final/fvec4ToRGB8.py:4-16 | fewer than two arguments gives the usage message; unparsable arguments fail; a reshape that does not fit fails; a zero width or height fails at the luma maximum; otherwise the output is written, and is the conversion |

## Left out

- OpenGL, GLFW, timing, window titles and `main` are not modelled. GL objects are counter names, and calls are log events. Shader.hpp (uniforms, `display`, `Bind`) is not part of this model.
- `sscanf` and `int()` parsing are function parameters (`Wavefront.Numerics`, `PostProcess.Run`'s `parseInt`). So are `glm::normalize`, the float32 decoding of final.bytes, and the script's luma normalisation (`normalise`).
- Floating-point rounding is not modelled; values are exact reals. This affects `(int)(180.0/y*x)`, `(int)(240.0/height*width)` and the `ceil` group counts.
- The trigonometry of the random directions is left out. Only the buffer sizing and the fill order are modelled.
- Camera motion, the shift/ctrl speed factors, and the MVP and camera matrices are left out. A frame is reduced to which scene calls it makes, and with which sample.
- File I/O (`exportRAW`, stream writes, opening files) is left out. Files are line sequences or byte sequences, and a file that cannot be opened is `None`.
- `loadMaterial`, `loadEnvironmentTexture`, `prepare`, `display` and `exportEXR` are declared without an implementation, and are not modelled.
- The emissive-first partition, area sort and scene bounding box belong to compute shaders whose source is not shown, and are not modelled.
- The header/source skew is left out: Scene.hpp lacks `render`, `rayBuffer` and `randomBuffer`. The model follows Scene.cpp.
- Scene.cpp calls a seven-argument `Triangle` constructor that 3Dobjects.hpp does not declare. It is modelled as the ten-argument constructor with zero texture coordinates, so OBJ texture coordinates are read but unused.
- The destructor of `st_RTCS_data` relies on adjacent handle fields. This memory-layout trick is not modelled.
- Undefined behaviour is the error `Fault.Undefined`, not a precondition, for an uninitialised `material_index` read at flush, an out-of-range face index, a zero height, and a triangle count beyond `unsigned int`.
- Resolution.AdaptResolution: requires `ResOk`, i.e. `x * y` fits an `int` and neither size is negative. The overflow of `newRes.x * newRes.y` (Scene.cpp:235-236) is undefined behaviour that the model excludes rather than reports. Negative sizes, which the source passes on to GL, are not modelled.
- Resolution.ResizeTargets: the same `ResOk` precondition as AdaptResolution.
- Resolution.Reallocate: the same `ResOk` precondition as AdaptResolution.
- Resolution.PreviewTargetWidth: the same `ResOk` precondition as AdaptResolution.
- Resolution.GenerateRandomUnitVectors: requires `ResOk` of the stored resolution, since its `int` product `x * y` (Scene.cpp:189) must not overflow either.
- Render.FirstTime: requires `ResOk` of the frame size, which it passes on to `adaptResolution`.
- Render.Render: requires `ResOk` of the frame size, for the same reason.
- Render.PreviewOverrunsTarget: requires `ResOk` of the frame size, for the same reason.
- Device.FinalizeObjects: a triangle count of 2^32 or more is reported as undefined. The source would size the buffer by the wrapped count and write past it.
- Export.ExportRgba8: the overflow of the `int` index `i * 4` beyond 2^29 pixels is not modelled. The unclamped float-to-byte cast is the parameter `quantise`.
- PostProcess.Run: numpy's `-1` wildcard and other negative `reshape` dimensions are treated as a shape mismatch. The message printed on usage is not modelled. A black image divides by zero in the luma normalisation; that lives inside the `normalise` parameter.

## Findings

| source | as written | input that shows it | evidently intended | confidence | as-written member | corrected member |
|---|---|---|---|---|---|---|
| Scene.cpp:396-398 | each pixel is written as (b, g, b): the third byte repeats blue | a 1x1 image with pixel (1, 0, 0, 1) is written as bytes 0, 0, 0, so pure red becomes black | (b, g, r), the 24-bit bitmap channel order | high, not executed | Export.AsWrittenRedIsBlack | Export.ExportBmpRoundTrip |
| Scene.cpp:395-399 | pixels are written back to back with no row padding | width 1, height 2: rows of 3 bytes, so the file has 60 bytes where a reader expects 54 + 2 * 4 = 62 | each row padded with zero bytes to a multiple of four | medium, not executed | Export.AsWrittenRowsShort | Export.ExportBmp |
