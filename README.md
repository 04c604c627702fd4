# wgpu-gltf viewer core, in Dafny

This project models the sequential logic of a small wgpu viewer for glTF 2.0 models
and proves properties of that model. It covers four parts:

- **The CPU side of the loader** (`Loader`, `src/graphics/loader.rs`). It builds the material
  list, with a white fallback when the document has no materials. It walks scenes, then root
  nodes, then primitives. It assembles vertices from optional normal and UV streams, with
  defaults. It synthesises `0..n` indices when a primitive has none. It widens RGB pixels to
  RGBA, accumulates the bounding box, and builds one mesh record per primitive. The glTF
  document is an abstract value: materials with an optional base-colour image index, scenes
  of root nodes, meshes of primitives with optional attribute streams, and decoded images.
- **The orbit-viewer state** (`Graphics`, `src/graphics/mod.rs`). This is a class whose
  fields are the surface size, yaw, pitch, radius, drag flag and last cursor position.
  Its methods are `resize`, the window and device event handlers, and `draw`. `draw`
  returns the GPU commands of one frame. Each method is proved against a function on a
  `GraphicsState` value. The handler lemmas, the radius invariant and the frame's shape
  are proved about those functions.
- **The two-state application lifecycle** (`App`, `src/app.rs`). `App` is a class whose
  `state` is `Ready(Graphics)` or `Init(Option<Proxy>)`. A ghost counter records how often
  graphics creation was started. A value-level `Step`/`Run` over event traces proves that
  creation starts at most once and that events are ignored before `Ready`.
- **The vertex record and its buffer layout** (`Model`, `src/graphics/model.rs`). This
  covers the `#[repr(C)]` field offsets, the packing done by `vertex_attr_array!`, the
  stride, and the 64-byte uniform payload.

`f32` is modelled as `real`, and only facts that hold over the reals are claimed.
`u32` is a subset type. Each `as u32` cast is written out as `% 2^32`. GPU buffers are
represented by the data uploaded into them. A material is represented by the RGBA image
handed to texture creation. That is the image its texture receives, except on the
white-fallback path: the texture created there never receives its image (see Findings). Other GPU work (surface configuration, depth buffer, camera upload,
render pass) is represented by a `GpuCommand` value with its arguments.

Three facts about the code that the model keeps as they are:

- No handler clamps the stored pitch. Only `orbit_eye` clamps a local copy to ±1.53
  (src/graphics/camera.rs:19), so nothing is claimed about the stored pitch.
- Over the reals, the normalising transform maps the bounding box into the cube
  [-1, 1]^3, which `TransformFitsUnitCube` proves. It does not map it into a unit sphere.
- Missing normals default to (0, 1, 0), and a primitive without a material gets material 0.
  glTF 2.0 itself asks for flat normals and a default material.

## Model

| member | source | states |
|---|---|---|
| `Model.ReprCPacked` | src/graphics/model.rs:5-11 | With `#[repr(C)]` and only f32-array fields, each field starts where the previous one ends and the record ends at the last field's end: no padding. |
| `Model.AttrArrayPacked` | src/graphics/model.rs:14-18 | `vertex_attr_array!` keeps the listed shader locations and formats in order and packs the attributes back to back from offset 0. |
| `Model.LayoutMatchesVertex` | src/graphics/model.rs:5-24 | The stride equals `size_of::<Vertex>()`, which is 8 × 4 = 32 bytes. Stepping is per vertex. Attributes 0, 1 and 2 sit at offsets 0, 12 and 24, the same offsets `#[repr(C)]` gives pos, nrm and uv, with 3, 3 and 2 components. The last attribute ends exactly at the stride. |
| `Model.AttributeReadsField` | src/graphics/model.rs:5-22 | Reading attribute k of a vertex's in-memory components (pos, nrm, uv in order) gives exactly field k. |
| `Model.UboPayloadColumnMajor` | src/graphics/model.rs:47-52 | The model uniform payload is 16 floats, 64 bytes, in column-major order: entry 4c + r is row r of column c. |
| `Loader.WidenedShape` | src/graphics/loader.rs:126-130 | RGB widening yields 4·⌊len/3⌋ bytes. Byte 4k+c is colour byte c of chunk k, and byte 4k+3 is 255. A trailing partial chunk is dropped. |
| `Loader.WidenRoundTrip` | src/graphics/loader.rs:126-130 | Removing every fourth byte of the widened buffer gives back exactly the complete RGB chunks of the input. |
| `Loader.WidenRgb` | src/graphics/loader.rs:127-130 | The chunk-by-chunk loop that extends `out` computes the widened buffer. |
| `Loader.TextureFallback` | src/graphics/loader.rs:119-138 | The texture is the 1×1 opaque-white image in three cases: no base-colour image, a format other than RGB8/RGBA8, or a buffer too small for w·h·4 bytes. Otherwise it is the image with its pixels as given (RGBA8) or widened (RGB8). |
| `Loader.MakeTextureMaterial` | src/graphics/loader.rs:113-138 | `make_texture_material` produces the material whose texture `TextureFallback` characterises. |
| `Loader.WellSizedImageKept` | src/graphics/loader.rs:119-133 | A well-formed decoded image never falls back to white. RGBA8 pixels of exactly 4·w·h bytes are kept as they are. RGB8 pixels of exactly 3·w·h bytes are kept widened, which gives 4·w·h bytes. |
| `Loader.ImplNeverUploads` | src/graphics/loader.rs:181-197 | `make_texture_material_impl` creates a texture of the given image's size and never writes to it. Every texel byte is zero, so a given image with any non-zero byte is never what the texture holds. |
| `Loader.WhiteFallbackNotUploaded` | src/graphics/loader.rs:108-111 | The fallback material as written (`WhiteMaterialAsWritten`, through `make_texture_material_impl`) is a 1×1 texture holding (0, 0, 0, 0), transparent black. It is not the opaque white (255, 255, 255, 255) that `make_white_material` builds. |
| `Loader.MaterialListShape` | src/graphics/loader.rs:13-24 | With zero document materials, the list is exactly one white material. Otherwise it has one material per document material, in order. Either way it is never empty. |
| `Loader.BuildMaterials` | src/graphics/loader.rs:13-24 | The material loop pushes exactly the list `MaterialListShape` describes. |
| `Loader.VerticesFaithful` | src/graphics/loader.rs:46-67 | The vertex count is the length of the shortest present stream, because `zip` truncates. Vertex i keeps position i, takes normal i or (0,1,0), and takes uv i or (0,0). |
| `Loader.IncludeAllContains` | src/graphics/loader.rs:48-49 | The running min/max box contains every position folded into it, and keeps every point it already contained. |
| `Loader.AssembleVertices` | src/graphics/loader.rs:45-67 | The per-vertex loop builds exactly those vertices and grows the box by exactly the positions used. |
| `Loader.MeshOfFaithful` | src/graphics/loader.rs:69-91 | A mesh keeps the primitive's own indices. Without indices it gets 0, 1, …, n−1 for its n vertices. `index_count` is the index list's length, and `material_id` is the primitive's material or 0. |
| `Loader.LoadPrimitive` | src/graphics/loader.rs:33-91 | One primitive aborts with `NotTriangles` if it is not a triangle list (checked first), or with `PositionMissing` if it lacks POSITION. Otherwise it yields its mesh record and the grown box. |
| `Loader.FirstErrorExtend` | src/graphics/loader.rs:32-38 | Once a primitive aborts the load, later primitives cannot change the outcome. |
| `Loader.FirstErrorIsFirstBad` | src/graphics/loader.rs:29-38 | The walk reports no error exactly when every visited primitive is acceptable. Otherwise it reports the reason of the first bad primitive. |
| `Loader.BoundsCoverMeshes` | src/graphics/loader.rs:26-67 | After the walk, min_v ≤ p ≤ max_v componentwise for every vertex position of every mesh. |
| `Loader.LoadMeshPrimitives` | src/graphics/loader.rs:32-92 | The primitive loop appends one mesh per primitive, in order, or stops at the first bad primitive. |
| `Loader.LoadNodes` | src/graphics/loader.rs:30-94 | The node loop visits each root node's own mesh only, in order, and nodes without a mesh contribute nothing. |
| `Loader.LoadScenes` | src/graphics/loader.rs:29-95 | The scene loop visits scenes in order and yields the meshes and box of all their root nodes' primitives, or the first abort. |
| `Loader.LoadModel` | src/graphics/loader.rs:6-105 | `load_gltf_model` builds the materials first, then returns the walk's abort or the model of meshes, materials and bounds. |
| `Loader.LoadSucceeds` | src/graphics/loader.rs:13-105 | A successful load has at least one material and exactly one mesh per visited primitive, in traversal order. Its box contains every vertex position. |
| `Loader.LoadFailsIff` | src/graphics/loader.rs:34-38 | The load aborts exactly when some visited primitive is not a triangle list or lacks POSITION. |
| `Loader.ChildrenIgnored` | src/graphics/loader.rs:29-31 | Child nodes are never visited: removing them does not change the result. |
| `Loader.MaxDim` | src/graphics/loader.rs:97-99 | `max_dim` is at least 1e-5 and at least every extent of a non-empty box, so `1.0 / max_dim` is always defined. |
| `Loader.ScaleFactor` | src/graphics/loader.rs:99-102 | The transform's uniform scale, 2 / max_dim, is positive. |
| `Loader.TransformFitsUnitCube` | src/graphics/loader.rs:97-103 | Over the reals, translating by −center and scaling by 2/max_dim maps every point of the box into [-1, 1]^3. |
| `Graphics.AtLeastOne` | src/graphics/mod.rs:57-58 | `u32::max(x, 1)` is at least 1 and keeps every non-zero value. |
| `Graphics.Clamp` | src/graphics/mod.rs:228 | `clamp(x, lo, hi)` lies in [lo, hi] and keeps x when x is already there. |
| `Graphics.InitialStateValid` | src/graphics/mod.rs:56-106 | The initial state has radius 3.0, no zero dimension and `rotating` false, so it satisfies the invariant. |
| `Graphics.ResizeNeverZero` | src/graphics/mod.rs:142-151 | `resize` stores max(w,1) and max(h,1), and changes nothing else. Every surface, depth and camera request it makes has non-zero dimensions. |
| `Graphics.MouseInputRule` | src/graphics/mod.rs:209-213 | A left press sets `rotating` and a left release clears it. Other buttons change nothing. |
| `Graphics.CursorMovedRule` | src/graphics/mod.rs:214-222 | `CursorMoved` always records the new position. Only while rotating do yaw and pitch decrease by 0.005 × the x/y delta. No other field changes. |
| `Graphics.WheelRule` | src/graphics/mod.rs:223-229 | A wheel event sets radius to clamp(radius + d, 0.5, 50) and changes nothing else. d is −0.25·y for line deltas and −0.001·y for pixel deltas. The result is in [0.5, 50] whatever radius was before. |
| `Graphics.MouseMotionRule` | src/graphics/mod.rs:234-241 | Raw motion decreases yaw and pitch by 0.0025 × delta only while rotating, and touches nothing else. |
| `Graphics.UnhandledEventsChangeNothing` | src/graphics/mod.rs:230 | Window events other than mouse input, cursor moves and wheel change nothing. |
| `Graphics.HandlersPreserveValid` | src/graphics/mod.rs:142-241 | Every handler and `resize` keep radius ∈ [0.5, 50], non-zero dimensions and a non-empty material list. |
| `Graphics.DragScenario` | src/graphics/mod.rs:214-222 | Dragging 100 pixels right decreases yaw by exactly 0.5 and leaves pitch unchanged. |
| `Graphics.ScrollScenario` | src/graphics/mod.rs:223-229 | One line of forward wheel decreases the radius by 0.25, stopping at 0.5. |
| `Graphics.MaterialSlot` | src/graphics/mod.rs:194 | min(material_id, len−1) is always a valid material index. It equals material_id when that is in range, and is the last material otherwise. |
| `Graphics.MeshDrawSelects` | src/graphics/mod.rs:194-199 | One mesh-loop iteration binds exactly one material and issues exactly one indexed draw. |
| `Graphics.MeshCommandsDrawEachMesh` | src/graphics/mod.rs:193-200 | The mesh loop issues, in list order, one material binding and one draw over 0..index_count per mesh. |
| `Graphics.MeshCommandsBlocks` | src/graphics/mod.rs:193-200 | The mesh loop issues 4 commands per mesh. Block i binds mesh i's material, vertex buffer and index buffer, then draws mesh i. |
| `Graphics.FrameDrawsEachMesh` | src/graphics/mod.rs:153-205 | A frame has 9 + 4·n commands. It issues exactly one indexed draw per mesh, in list order, each over its full index range. Each mesh binds material min(material_id, len−1), which exists. Commands 6+4i to 9+4i bind mesh i's material and buffers immediately before drawing mesh i. |
| `Graphics.Graphics.constructor` | src/graphics/mod.rs:79-106 | The initial field values: yaw 0.6, pitch 0.5, radius 3.0, target (0, 0.5, 0), not rotating, cursor (0,0). |
| `Graphics.Graphics.Resize` | src/graphics/mod.rs:142-151 | `resize` updates the fields as `AfterResize` says, keeps the invariant, and issues the surface, depth and camera requests. |
| `Graphics.Graphics.Draw` | src/graphics/mod.rs:153-205 | `draw` records exactly the frame `FrameDrawsEachMesh` describes. |
| `Graphics.Graphics.HandleWindowEvent` | src/graphics/mod.rs:207-232 | `handle_window_event` updates the fields as `AfterWindowEvent` says, and the radius stays in range. |
| `Graphics.Graphics.HandleDeviceEvent` | src/graphics/mod.rs:234-241 | `handle_device_event` updates the fields as `AfterDeviceEvent` says. |
| `Graphics.CreateGraphics` | src/graphics/mod.rs:56-108 | Startup fails exactly when the load does. Otherwise it yields a fresh, valid `Graphics` in the initial state, with the surface size raised to at least 1. |
| `App.Step` | src/app.rs:40-95 | Every handler keeps a ready renderer valid. |
| `App.Run` | src/app.rs:40-95 | Over any sequence of events, the renderer stays valid, so radius ∈ [0.5, 50] and no dimension is zero. |
| `App.NoProxyNoStart` | src/app.rs:40-55 | Once the proxy has been taken, it never returns and graphics creation is never started again. |
| `App.StartsAtMostOnce` | src/app.rs:40-55 | Whatever the events, graphics creation is started at most once. |
| `App.FirstResumedStarts` | src/app.rs:20-24 | `App::new` holds the proxy. The first `resumed` takes it and starts creation, and a second `resumed` does nothing. |
| `App.InitIgnoresEvents` | src/app.rs:26-36 | Before `Ready`, draw, resize, forwarded window events, device events and `about_to_wait` change nothing and ask for nothing. |
| `App.CloseAlwaysExits` | src/app.rs:71 | A close request exits the loop in either state and changes nothing. |
| `App.UserEventMakesReady` | src/app.rs:57-60 | A delivered `Graphics` moves either state to `Ready` and requests a redraw. |
| `App.ReadyRoutesWindowEvents` | src/app.rs:68-77 | When ready, `Resized` goes to `resize`, `RedrawRequested` to `draw`, and every other event except close to `handle_window_event`. |
| `App.App.constructor` | src/app.rs:20-24 | `App::new` starts in `Init` holding a proxy, with no creation started. |
| `App.App.Resumed` | src/app.rs:40-55 | `resumed` acts only in `Init` with a proxy: it takes the proxy and starts creation once. The ghost count stays ≤ 1. |
| `App.App.UserEvent` | src/app.rs:57-60 | `user_event` requests a redraw and stores `Ready(graphics)`. |
| `App.App.Draw` | src/app.rs:26-30 | `App::draw` records a frame only when `Ready`. |
| `App.App.Resized` | src/app.rs:32-36 | `App::resized` resizes only when `Ready`. |
| `App.App.WindowEvent` | src/app.rs:62-78 | `window_event` routes as `Step` says and keeps the invariant. |
| `App.App.DeviceEvent` | src/app.rs:80-89 | `device_event` reaches the renderer only when `Ready`. |
| `App.App.AboutToWait` | src/app.rs:91-95 | `about_to_wait` requests a redraw only when `Ready`. |

## Left out

- GPU resource creation and use are not modelled as GPU operations. This covers buffers, textures, samplers, bind groups, the pipeline in src/graphics/pipeline.rs, `create_depth` in src/graphics/depth.rs, and surface configure, acquire and present. They are foreign calls. The model keeps the data uploaded, or a `GpuCommand` naming the request and its arguments.
- `gltf::import` parsing and `image` decoding are foreign libraries, and so is a failure to read or parse the file. The document and its decoded images are an input value. Indices are taken as already widened by `into_u32`, and texture coordinates as already converted by `into_f32`.
- The primitive reader's buffer lookups are not modelled. Each attribute stream is given directly as an optional sequence.
- The camera math in src/graphics/camera.rs is left out: `orbit_eye`, `look_at_rh`, `perspective_rh_gl` and the projection × view product. So is the matrix product building `recommended_xform`. These are trig and floating-point numerics. The model keeps the transform's scalar parts (center, max_dim, scale) over the reals.
- The center of an empty bounding box is NaN in the source. `Loader.Center` is undefined there.
- `Loader.TransformFitsUnitCube`, `Graphics.WheelRule`, `Graphics.CursorMovedRule`, `Graphics.MouseMotionRule`, `Graphics.DragScenario` and `Graphics.ScrollScenario` hold over the reals. f32 rounding of the yaw, pitch, radius and scale updates, and the f64 → f32 casts of cursor and motion deltas, are not modelled.
- No claim is made that the stored pitch is bounded. No handler clamps it.
- A failure to acquire the surface texture in `draw` aborts the program. The model assumes acquisition succeeds (`AcquireFrame`).
- Window creation, its failure, `pollster::block_on`, GPU adapter and device negotiation, proxy delivery, logging and src/main.rs are event-loop plumbing. Starting graphics creation is the `StartGraphics` effect, and the delivered `Graphics` is the argument of `user_event`.
- `request_redraw` and `event_loop.exit()` are the effects `RequestRedraw` and `ExitLoop`.
- `bytemuck` byte casting is left out. `Model.Components` states only the order of a vertex's f32 components.
- `from_raw` (modelled by `Loader.FromRaw`) multiplies w·4·h with overflow checks. Overflow rejects the buffer, and so does any product larger than the buffer, which is shorter than 2^64. So the unbounded comparison used here gives the same answer.
- The `Vec::with_capacity((w * h * 4) as usize)` capacity hint is left out. It is computed in u32 and affects no result.
- The four `zip` loops of the vertex assembly are modelled as one loop that matches on which streams are present for each vertex. Each arm builds the vertex the corresponding source loop builds, and the loop stops at the shortest present stream.
- The nested scene, node and primitive loops of `load_gltf_model` are split into one method per level (`LoadScenes`, `LoadNodes`, `LoadMeshPrimitives`). The order of work is unchanged.
- The sampler settings of a material are left out. A material is represented by its texture image.
- `Graphics.Graphics.Draw` requires the invariant, and the invariant includes a non-empty material list. With no materials and at least one mesh, the source would underflow `len() - 1` and panic. The loader never produces that state (`Loader.LoadSucceeds`).

## Findings

| source | as written | input that shows it | evidently intended | confidence | as-written member | corrected member |
|---|---|---|---|---|---|---|
| src/graphics/loader.rs:108-111 | `make_white_material` builds a 1×1 white image and passes it to `make_texture_material_impl` (src/graphics/loader.rs:181-197). That function creates the texture with `create_texture` and never writes the pixel, because its queue parameter is unused. The texture keeps WebGPU's zero initial contents: transparent black. | Any document with zero materials. Every mesh then binds a texture whose only texel is (0, 0, 0, 0). | The single white fallback material is opaque white (255, 255, 255, 255), as the textured path uploads it with `create_texture_with_data`. | high (not executed) | `Loader.WhiteMaterialAsWritten`, built by `Loader.MaterialImplAsWritten` (whose zero contents `Loader.ImplNeverUploads` states) and shown to differ by `Loader.WhiteFallbackNotUploaded` | `Loader.WhiteMaterial`, used by `Loader.MaterialList` and proved by `Loader.MaterialListShape` |
