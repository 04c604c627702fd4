/**
 * The renderer's state and event handling (src/graphics/mod.rs): the orbit-camera
 * parameters, the surface size, the drag state, and the command stream one frame
 * records. GPU work is represented by the commands issued, with their arguments.
 */
module Graphics {
  import opened Wrappers
  import opened Model
  import Loader

  // ---------------------------------------------------------------------------
  // Input events (the subset of winit's that the handlers look at)
  // ---------------------------------------------------------------------------

  datatype ElementState = Pressed | Released

  datatype MouseButton = Left | Right | Middle | Back | Forward | OtherButton(id: nat)

  datatype MouseScrollDelta = LineDelta(x: real, y: real) | PixelDelta(x: real, y: real)

  datatype WindowEvent =
    | Resized(width: u32, height: u32)
    | RedrawRequested
    | CloseRequested
    | MouseInput(state: ElementState, button: MouseButton)
    | CursorMoved(x: real, y: real)
    | MouseWheel(delta: MouseScrollDelta)
    | OtherWindowEvent

  datatype DeviceEvent = MouseMotion(dx: real, dy: real) | OtherDeviceEvent

  // ---------------------------------------------------------------------------
  // Constants of the handlers and of `create_graphics`
  // ---------------------------------------------------------------------------

  const MIN_RADIUS: real := 0.5
  const MAX_RADIUS: real := 50.0
  /** Radians of yaw/pitch per pixel of cursor movement while dragging. */
  const DRAG_SENSITIVITY: real := 0.005
  /** Radians of yaw/pitch per unit of raw mouse motion while dragging. */
  const MOTION_SENSITIVITY: real := 0.0025
  const LINE_ZOOM: real := 0.25
  const PIXEL_ZOOM: real := 0.001
  const INITIAL_YAW: real := 0.6
  const INITIAL_PITCH: real := 0.5
  const INITIAL_RADIUS: real := 3.0
  const TARGET: Vec3 := Vec3(0.0, 0.5, 0.0)

  // ---------------------------------------------------------------------------
  // GPU commands
  // ---------------------------------------------------------------------------

  datatype BindGroup = CameraGroup | ModelGroup | MaterialGroup(material: nat)

  datatype GpuCommand =
    | ConfigureSurface(width: u32, height: u32)
    | CreateDepth(width: u32, height: u32)
    | WriteCamera(width: u32, height: u32, yaw: real, pitch: real, radius: real, target: Vec3)
    | AcquireFrame
    | BeginRenderPass(clearColor: Vec4, clearDepth: real)
    | SetPipeline
    | SetBindGroup(index: nat, group: BindGroup)
    | SetVertexBuffer(slot: nat, mesh: nat)
    | SetIndexBuffer(mesh: nat)
    | DrawIndexed(indexStart: nat, indexEnd: nat, baseVertex: int, instanceStart: nat, instanceEnd: nat)
    | EndRenderPass
    | Submit
    | Present

  // ---------------------------------------------------------------------------
  // The state as a value, and what each handler makes of it
  // ---------------------------------------------------------------------------

  /** The fields of `Graphics` the handlers and `draw` read or write. */
  datatype GraphicsState = GraphicsState(
    width: u32, height: u32,
    yaw: real, pitch: real, radius: real, target: Vec3,
    rotating: bool, lastCursor: Vec2,
    meshes: seq<GpuMesh>, materials: seq<Material>)

  /** What holds of every `Graphics`: a non-zero surface, the radius within its clamp,
      and a material for `draw` to fall back to. */
  predicate StateValid(g: GraphicsState) {
    g.width >= 1 && g.height >= 1 &&
    MIN_RADIUS <= g.radius <= MAX_RADIUS &&
    |g.materials| >= 1
  }

  /** `u32::max(x, 1)` */
  function AtLeastOne(x: u32): (r: u32)
    ensures r >= 1 && (x >= 1 ==> r == x)
  {
    if x >= 1 then x else 1
  }

  /** `f32::clamp(x, lo, hi)` */
  function Clamp(x: real, lo: real, hi: real): (r: real)
    requires lo <= hi
    ensures lo <= r <= hi
    ensures lo <= x <= hi ==> r == x
  {
    if x < lo then lo else if x > hi then hi else x
  }

  /** The radius change of one wheel event: a wheel turned forward (positive y) zooms in. */
  function ZoomDelta(d: MouseScrollDelta): real {
    match d
    case LineDelta(_, y) => -y * LINE_ZOOM
    case PixelDelta(_, y) => -y * PIXEL_ZOOM
  }

  /** The initial state `create_graphics` builds around the loaded model. */
  function InitialState(windowWidth: u32, windowHeight: u32, model: Model): GraphicsState {
    GraphicsState(
      AtLeastOne(windowWidth), AtLeastOne(windowHeight),
      INITIAL_YAW, INITIAL_PITCH, INITIAL_RADIUS, TARGET,
      false, Vec2(0.0, 0.0),
      model.meshes, model.materials)
  }

  /** `resize`: store the new size with each dimension raised to at least 1. */
  function AfterResize(g: GraphicsState, w: u32, h: u32): GraphicsState {
    g.(width := AtLeastOne(w), height := AtLeastOne(h))
  }

  /** The GPU work `resize` does with the new size. */
  function ResizeCommands(g: GraphicsState): seq<GpuCommand> {
    [ConfigureSurface(g.width, g.height), CreateDepth(g.width, g.height),
     WriteCamera(g.width, g.height, g.yaw, g.pitch, g.radius, g.target)]
  }

  /** `handle_window_event` */
  function AfterWindowEvent(g: GraphicsState, e: WindowEvent): GraphicsState {
    match e
    case MouseInput(state, button) =>
      if button == Left then g.(rotating := state == Pressed) else g
    case CursorMoved(x, y) =>
      var pos := Vec2(x, y);
      if g.rotating then
        g.(yaw := g.yaw - (x - g.lastCursor.x) * DRAG_SENSITIVITY,
           pitch := g.pitch - (y - g.lastCursor.y) * DRAG_SENSITIVITY,
           lastCursor := pos)
      else g.(lastCursor := pos)
    case MouseWheel(delta) =>
      g.(radius := Clamp(g.radius + ZoomDelta(delta), MIN_RADIUS, MAX_RADIUS))
    case _ => g
  }

  /** `handle_device_event` */
  function AfterDeviceEvent(g: GraphicsState, e: DeviceEvent): GraphicsState {
    match e
    case MouseMotion(dx, dy) =>
      if g.rotating then
        g.(yaw := g.yaw - dx * MOTION_SENSITIVITY, pitch := g.pitch - dy * MOTION_SENSITIVITY)
      else g
    case OtherDeviceEvent => g
  }

  // ---------------------------------------------------------------------------
  // Properties of the handlers
  // ---------------------------------------------------------------------------

  /** The initial state is valid: radius 3.0, no zero dimension, not dragging. */
  lemma InitialStateValid(windowWidth: u32, windowHeight: u32, model: Model)
    requires |model.materials| >= 1
    ensures StateValid(InitialState(windowWidth, windowHeight, model))
    ensures InitialState(windowWidth, windowHeight, model).radius == 3.0
    ensures !InitialState(windowWidth, windowHeight, model).rotating
  {
  }

  /** `resize` never stores a zero dimension, requests no zero-sized surface or depth
      buffer, and changes nothing but the size. */
  lemma ResizeNeverZero(g: GraphicsState, w: u32, h: u32)
    ensures AfterResize(g, w, h).width == (if w == 0 then 1 else w)
    ensures AfterResize(g, w, h).height == (if h == 0 then 1 else h)
    ensures forall c :: c in ResizeCommands(AfterResize(g, w, h)) ==>
      (c.ConfigureSurface? || c.CreateDepth? || c.WriteCamera?) && c.width >= 1 && c.height >= 1
    ensures AfterResize(g, w, h).(width := g.width, height := g.height) == g
  {
  }

  /** A left press starts dragging and a left release ends it; other buttons change nothing. */
  lemma MouseInputRule(g: GraphicsState, state: ElementState, button: MouseButton)
    ensures button == Left ==> AfterWindowEvent(g, MouseInput(state, button)) == g.(rotating := state == Pressed)
    ensures button != Left ==> AfterWindowEvent(g, MouseInput(state, button)) == g
  {
  }

  /** A cursor move always records the position; only while dragging does it turn the
      camera, by 0.005 rad per pixel moved since the last recorded position. */
  lemma CursorMovedRule(g: GraphicsState, x: real, y: real)
    ensures AfterWindowEvent(g, CursorMoved(x, y)).lastCursor == Vec2(x, y)
    ensures g.rotating ==>
      AfterWindowEvent(g, CursorMoved(x, y)).yaw == g.yaw - DRAG_SENSITIVITY * (x - g.lastCursor.x) &&
      AfterWindowEvent(g, CursorMoved(x, y)).pitch == g.pitch - DRAG_SENSITIVITY * (y - g.lastCursor.y)
    ensures !g.rotating ==> AfterWindowEvent(g, CursorMoved(x, y)) == g.(lastCursor := Vec2(x, y))
    ensures AfterWindowEvent(g, CursorMoved(x, y)).(yaw := g.yaw, pitch := g.pitch, lastCursor := g.lastCursor) == g
  {
  }

  /** A wheel event sets the radius to clamp(radius + d, 0.5, 50) and changes nothing else;
      afterwards the radius is in range, whatever it was before. */
  lemma WheelRule(g: GraphicsState, delta: MouseScrollDelta)
    ensures var g' := AfterWindowEvent(g, MouseWheel(delta));
      MIN_RADIUS <= g'.radius <= MAX_RADIUS &&
      g' == g.(radius := g'.radius)
    ensures var target := g.radius + ZoomDelta(delta);
      var r := AfterWindowEvent(g, MouseWheel(delta)).radius;
      (target < MIN_RADIUS ==> r == MIN_RADIUS) &&
      (target > MAX_RADIUS ==> r == MAX_RADIUS) &&
      (MIN_RADIUS <= target <= MAX_RADIUS ==> r == target)
  {
  }

  /** Raw mouse motion turns the camera by 0.0025 rad per unit only while dragging,
      and touches no other field. */
  lemma MouseMotionRule(g: GraphicsState, dx: real, dy: real)
    ensures g.rotating ==>
      AfterDeviceEvent(g, MouseMotion(dx, dy)) ==
        g.(yaw := g.yaw - MOTION_SENSITIVITY * dx, pitch := g.pitch - MOTION_SENSITIVITY * dy)
    ensures !g.rotating ==> AfterDeviceEvent(g, MouseMotion(dx, dy)) == g
  {
  }

  /** Window events the handler does not match change nothing. */
  lemma UnhandledEventsChangeNothing(g: GraphicsState, e: WindowEvent)
    requires !e.MouseInput? && !e.CursorMoved? && !e.MouseWheel?
    ensures AfterWindowEvent(g, e) == g
  {
  }

  /** Every handler keeps the state valid; in particular the radius stays in [0.5, 50]. */
  lemma HandlersPreserveValid(g: GraphicsState, e: WindowEvent, d: DeviceEvent, w: u32, h: u32)
    requires StateValid(g)
    ensures StateValid(AfterWindowEvent(g, e))
    ensures StateValid(AfterDeviceEvent(g, d))
    ensures StateValid(AfterResize(g, w, h))
  {
  }

  /** Dragging 100 pixels to the right turns the camera by exactly 0.5 rad of yaw. */
  lemma DragScenario(g: GraphicsState)
    requires g.rotating
    ensures AfterWindowEvent(g, CursorMoved(g.lastCursor.x + 100.0, g.lastCursor.y)).yaw == g.yaw - 0.5
    ensures AfterWindowEvent(g, CursorMoved(g.lastCursor.x + 100.0, g.lastCursor.y)).pitch == g.pitch
  {
  }

  /** One line of wheel forward zooms in by 0.25, clamped at 0.5. */
  lemma ScrollScenario(g: GraphicsState)
    requires StateValid(g)
    ensures AfterWindowEvent(g, MouseWheel(LineDelta(0.0, 1.0))).radius ==
      if g.radius - 0.25 < MIN_RADIUS then MIN_RADIUS else g.radius - 0.25
  {
  }

  // ---------------------------------------------------------------------------
  // The frame `draw` records
  // ---------------------------------------------------------------------------

  /** `mesh.material_id.min(materials.len() - 1)`: out-of-range ids fall back to the last material. */
  function MaterialSlot(materialId: nat, materialCount: nat): (k: nat)
    requires materialCount >= 1
    ensures k < materialCount
    ensures materialId < materialCount ==> k == materialId
    ensures materialId >= materialCount ==> k == materialCount - 1
  {
    if materialId < materialCount - 1 then materialId else materialCount - 1
  }

  /** The commands of one iteration of the mesh loop of `draw`, for mesh number `i`. */
  function MeshDraw(m: GpuMesh, i: nat, materialCount: nat): seq<GpuCommand>
    requires materialCount >= 1
  {
    [SetBindGroup(2, MaterialGroup(MaterialSlot(m.materialId, materialCount))),
     SetVertexBuffer(0, i),
     SetIndexBuffer(i),
     DrawIndexed(0, m.indexCount, 0, 0, 1)]
  }

  function MeshCommands(meshes: seq<GpuMesh>, materialCount: nat): seq<GpuCommand>
    requires materialCount >= 1
    decreases |meshes|
  {
    if meshes == [] then []
    else MeshCommands(meshes[..|meshes| - 1], materialCount) + MeshDraw(meshes[|meshes| - 1], |meshes| - 1, materialCount)
  }

  const CLEAR_COLOR: Vec4 := Vec4(0.0, 0.0, 0.0, 1.0)
  const CLEAR_DEPTH: real := 1.0

  function FramePrologue(g: GraphicsState): seq<GpuCommand> {
    [WriteCamera(g.width, g.height, g.yaw, g.pitch, g.radius, g.target),
     AcquireFrame,
     BeginRenderPass(CLEAR_COLOR, CLEAR_DEPTH),
     SetPipeline,
     SetBindGroup(0, CameraGroup),
     SetBindGroup(1, ModelGroup)]
  }

  const FRAME_EPILOGUE: seq<GpuCommand> := [EndRenderPass, Submit, Present]

  /** Everything one call of `draw` issues. */
  function FrameCommands(g: GraphicsState): seq<GpuCommand>
    requires |g.materials| >= 1
  {
    FramePrologue(g) + MeshCommands(g.meshes, |g.materials|) + FRAME_EPILOGUE
  }

  predicate IsDraw(c: GpuCommand) { c.DrawIndexed? }

  predicate IsMaterialBind(c: GpuCommand) { c.SetBindGroup? && c.index == 2 }

  /** The commands of `cmds` that satisfy `keep`, in order. */
  function Select(cmds: seq<GpuCommand>, keep: GpuCommand -> bool): seq<GpuCommand>
    decreases |cmds|
  {
    if cmds == [] then []
    else (if keep(cmds[0]) then [cmds[0]] else []) + Select(cmds[1..], keep)
  }

  lemma {:induction false} SelectAppend(a: seq<GpuCommand>, b: seq<GpuCommand>, keep: GpuCommand -> bool)
    ensures Select(a + b, keep) == Select(a, keep) + Select(b, keep)
    decreases |a|
  {
    if a != [] {
      SelectAppend(a[1..], b, keep);
      assert (a + b)[1..] == a[1..] + b;
    } else {
      assert a + b == b;
    }
  }

  lemma {:induction false} SelectNone(cmds: seq<GpuCommand>, keep: GpuCommand -> bool)
    requires forall i :: 0 <= i < |cmds| ==> !keep(cmds[i])
    ensures Select(cmds, keep) == []
    decreases |cmds|
  {
    if cmds != [] {
      SelectNone(cmds[1..], keep);
    }
  }

  /** One iteration of the mesh loop binds one material and draws once. */
  lemma MeshDrawSelects(m: GpuMesh, i: nat, materialCount: nat)
    requires materialCount >= 1
    ensures Select(MeshDraw(m, i, materialCount), IsDraw) == [DrawIndexed(0, m.indexCount, 0, 0, 1)]
    ensures Select(MeshDraw(m, i, materialCount), IsMaterialBind) ==
      [SetBindGroup(2, MaterialGroup(MaterialSlot(m.materialId, materialCount)))]
  {
    var md := MeshDraw(m, i, materialCount);
    SelectNone(md[..3], IsDraw);
    SelectAppend(md[..3], md[3..], IsDraw);
    assert md == md[..3] + md[3..];
    SelectNone(md[1..], IsMaterialBind);
    SelectAppend(md[..1], md[1..], IsMaterialBind);
    assert md == md[..1] + md[1..];
  }

  /** The mesh loop records, mesh by mesh in list order, one material binding and one
      indexed draw over 0..index_count; the binding names an existing material. */
  lemma {:induction false} MeshCommandsDrawEachMesh(meshes: seq<GpuMesh>, materialCount: nat)
    requires materialCount >= 1
    ensures Select(MeshCommands(meshes, materialCount), IsDraw) ==
      seq(|meshes|, i requires 0 <= i < |meshes| => DrawIndexed(0, meshes[i].indexCount, 0, 0, 1))
    ensures Select(MeshCommands(meshes, materialCount), IsMaterialBind) ==
      seq(|meshes|, i requires 0 <= i < |meshes| =>
        SetBindGroup(2, MaterialGroup(MaterialSlot(meshes[i].materialId, materialCount))))
    decreases |meshes|
  {
    if meshes != [] {
      var init := meshes[..|meshes| - 1];
      var last := meshes[|meshes| - 1];
      MeshCommandsDrawEachMesh(init, materialCount);
      SelectAppend(MeshCommands(init, materialCount), MeshDraw(last, |meshes| - 1, materialCount), IsDraw);
      SelectAppend(MeshCommands(init, materialCount), MeshDraw(last, |meshes| - 1, materialCount), IsMaterialBind);
      MeshDrawSelects(last, |meshes| - 1, materialCount);
    }
  }

  /** The mesh loop's commands come in blocks of four, one per mesh and in list order: block i
      binds mesh i's material and buffers immediately before drawing mesh i. */
  lemma {:induction false} MeshCommandsBlocks(meshes: seq<GpuMesh>, materialCount: nat)
    requires materialCount >= 1
    ensures |MeshCommands(meshes, materialCount)| == 4 * |meshes|
    ensures forall i :: 0 <= i < |meshes| ==>
      MeshCommands(meshes, materialCount)[4 * i .. 4 * i + 4] == MeshDraw(meshes[i], i, materialCount)
    decreases |meshes|
  {
    if meshes != [] {
      var n := |meshes| - 1;
      var init := meshes[..n];
      MeshCommandsBlocks(init, materialCount);
      var all := MeshCommands(meshes, materialCount);
      assert all == MeshCommands(init, materialCount) + MeshDraw(meshes[n], n, materialCount);
      forall i | 0 <= i < |meshes|
        ensures all[4 * i .. 4 * i + 4] == MeshDraw(meshes[i], i, materialCount)
      {
        if i < n {
          assert init[i] == meshes[i];
          assert all[4 * i .. 4 * i + 4] == MeshCommands(init, materialCount)[4 * i .. 4 * i + 4];
        } else {
          assert all[4 * i .. 4 * i + 4] == MeshDraw(meshes[n], n, materialCount);
        }
      }
    }
  }

  /** A frame issues exactly one indexed draw per mesh, in list order, each over the mesh's
      whole index range, and binds for each mesh the material min(material_id, len - 1),
      which always exists. */
  lemma FrameDrawsEachMesh(g: GraphicsState)
    requires |g.materials| >= 1
    ensures Select(FrameCommands(g), IsDraw) ==
      seq(|g.meshes|, i requires 0 <= i < |g.meshes| => DrawIndexed(0, g.meshes[i].indexCount, 0, 0, 1))
    ensures Select(FrameCommands(g), IsMaterialBind) ==
      seq(|g.meshes|, i requires 0 <= i < |g.meshes| =>
        SetBindGroup(2, MaterialGroup(MaterialSlot(g.meshes[i].materialId, |g.materials|))))
    ensures forall c :: c in Select(FrameCommands(g), IsMaterialBind) ==>
      c.group.MaterialGroup? && c.group.material < |g.materials|
    ensures |FrameCommands(g)| == 9 + 4 * |g.meshes|
    ensures forall i :: 0 <= i < |g.meshes| ==>
      FrameCommands(g)[6 + 4 * i .. 10 + 4 * i] == MeshDraw(g.meshes[i], i, |g.materials|)
  {
    var mc := MeshCommands(g.meshes, |g.materials|);
    MeshCommandsDrawEachMesh(g.meshes, |g.materials|);
    MeshCommandsBlocks(g.meshes, |g.materials|);
    forall i | 0 <= i < |g.meshes|
      ensures FrameCommands(g)[6 + 4 * i .. 10 + 4 * i] == MeshDraw(g.meshes[i], i, |g.materials|)
    {
      assert FrameCommands(g)[6 + 4 * i .. 10 + 4 * i] == mc[4 * i .. 4 * i + 4];
    }
    SelectNone(FramePrologue(g), IsDraw);
    SelectNone(FRAME_EPILOGUE, IsDraw);
    SelectNone(FramePrologue(g), IsMaterialBind);
    SelectNone(FRAME_EPILOGUE, IsMaterialBind);
    SelectAppend(FramePrologue(g) + mc, FRAME_EPILOGUE, IsDraw);
    SelectAppend(FramePrologue(g), mc, IsDraw);
    SelectAppend(FramePrologue(g) + mc, FRAME_EPILOGUE, IsMaterialBind);
    SelectAppend(FramePrologue(g), mc, IsMaterialBind);
  }

  // ---------------------------------------------------------------------------
  // The `Graphics` object
  // ---------------------------------------------------------------------------

  class Graphics {
    var width: u32
    var height: u32
    var yaw: real
    var pitch: real
    var radius: real
    const target: Vec3
    var rotating: bool
    var lastCursor: Vec2
    /** `model.meshes` and `model.materials`, fixed once the model is loaded. */
    const meshes: seq<GpuMesh>
    const materials: seq<Material>

    function State(): GraphicsState
      reads this
    {
      GraphicsState(width, height, yaw, pitch, radius, target, rotating, lastCursor, meshes, materials)
    }

    ghost predicate Valid()
      reads this
    {
      StateValid(State())
    }

    /** The `Graphics { ... }` literal at the end of `create_graphics`. */
    constructor (surfaceWidth: u32, surfaceHeight: u32, model: Model)
      requires surfaceWidth >= 1 && surfaceHeight >= 1 && |model.materials| >= 1
      ensures State() == InitialState(surfaceWidth, surfaceHeight, model)
      ensures Valid()
    {
      width, height := surfaceWidth, surfaceHeight;
      yaw, pitch, radius := INITIAL_YAW, INITIAL_PITCH, INITIAL_RADIUS;
      target := TARGET;
      rotating := false;
      lastCursor := Vec2(0.0, 0.0);
      meshes, materials := model.meshes, model.materials;
    }

    method Resize(w: u32, h: u32) returns (cmds: seq<GpuCommand>)
      requires Valid()
      modifies this
      ensures Valid()
      ensures State() == AfterResize(old(State()), w, h)
      ensures cmds == ResizeCommands(State())
    {
      width := AtLeastOne(w);
      height := AtLeastOne(h);
      cmds := [ConfigureSurface(width, height), CreateDepth(width, height),
               WriteCamera(width, height, yaw, pitch, radius, target)];
    }

    /** `draw`: the camera upload, the render pass and its mesh loop, submission. */
    method Draw() returns (cmds: seq<GpuCommand>)
      requires Valid()
      ensures cmds == FrameCommands(State())
    {
      cmds := [WriteCamera(width, height, yaw, pitch, radius, target),
               AcquireFrame,
               BeginRenderPass(CLEAR_COLOR, CLEAR_DEPTH),
               SetPipeline,
               SetBindGroup(0, CameraGroup),
               SetBindGroup(1, ModelGroup)];
      var i := 0;
      while i < |meshes|
        invariant 0 <= i <= |meshes|
        invariant cmds == FramePrologue(State()) + MeshCommands(meshes[..i], |materials|)
      {
        var mesh := meshes[i];
        var mat := MaterialSlot(mesh.materialId, |materials|);
        assert meshes[..i + 1][..i] == meshes[..i];
        cmds := cmds + [SetBindGroup(2, MaterialGroup(mat)),
                        SetVertexBuffer(0, i),
                        SetIndexBuffer(i),
                        DrawIndexed(0, mesh.indexCount, 0, 0, 1)];
        i := i + 1;
      }
      assert meshes[..i] == meshes;
      cmds := cmds + [EndRenderPass, Submit, Present];
    }

    method HandleWindowEvent(e: WindowEvent)
      requires Valid()
      modifies this
      ensures Valid()
      ensures State() == AfterWindowEvent(old(State()), e)
    {
      match e {
        case MouseInput(state, button) =>
          if button == Left {
            rotating := state == Pressed;
          }
        case CursorMoved(x, y) =>
          var pos := Vec2(x, y);
          if rotating {
            var dx, dy := (pos.x - lastCursor.x) * DRAG_SENSITIVITY, (pos.y - lastCursor.y) * DRAG_SENSITIVITY;
            yaw := yaw - dx;
            pitch := pitch - dy;
          }
          lastCursor := pos;
        case MouseWheel(delta) =>
          var d := match delta
            case LineDelta(_, y) => -y * LINE_ZOOM
            case PixelDelta(_, y) => -y * PIXEL_ZOOM;
          radius := Clamp(radius + d, MIN_RADIUS, MAX_RADIUS);
        case _ =>
      }
    }

    method HandleDeviceEvent(e: DeviceEvent)
      requires Valid()
      modifies this
      ensures Valid()
      ensures State() == AfterDeviceEvent(old(State()), e)
    {
      if e.MouseMotion? {
        if rotating {
          yaw := yaw - e.dx * MOTION_SENSITIVITY;
          pitch := pitch - e.dy * MOTION_SENSITIVITY;
        }
      }
    }
  }

  /** `create_graphics` without the GPU negotiation: the surface size raised to at least 1,
      the model load (whose failure aborts startup), then the initial state. */
  method CreateGraphics(windowWidth: u32, windowHeight: u32, doc: Loader.Document)
    returns (r: Result<Graphics, Loader.LoadError>)
    ensures r.Failure? <==> Loader.Load(doc).Failure?
    ensures r.Failure? ==> r.error == Loader.Load(doc).error
    ensures r.Success? ==>
      fresh(r.value) && r.value.Valid() &&
      r.value.State() == InitialState(windowWidth, windowHeight, Loader.Load(doc).value)
  {
    var width := AtLeastOne(windowWidth);
    var height := AtLeastOne(windowHeight);
    var model := Loader.LoadModel(doc);
    if model.Failure? {
      return Failure(model.error);
    }
    Loader.LoadSucceeds(doc);
    var g := new Graphics(width, height, model.value);
    r := Success(g);
  }
}
