/**
 * The application's two-state lifecycle (src/app.rs): `Init` holds the event-loop
 * proxy until the first `resumed` hands it to the graphics startup; `Ready` holds
 * the `Graphics` delivered back as a user event. Window and device events reach
 * the renderer only once it is `Ready`.
 */
module App {
  import opened Wrappers
  import Graphics
  import Model

  /** `EventLoopProxy<Graphics>`: the opaque handle the startup path sends the `Graphics` through. */
  datatype Proxy = EventLoopProxy

  /** `enum State` */
  datatype State = Ready(gfx: Graphics.Graphics) | Init(proxy: Option<Proxy>)

  /** The application state as a value: the renderer's state when ready. */
  datatype Phase = ReadyPhase(g: Graphics.GraphicsState) | InitPhase(proxy: Option<Proxy>)

  /** The calls the event loop makes on the application. */
  datatype AppEvent =
    | Resumed
    | UserEvent(g: Graphics.GraphicsState)
    | Window(e: Graphics.WindowEvent)
    | Device(d: Graphics.DeviceEvent)
    | AboutToWait

  /** What a handler asks of the world outside the application. */
  datatype Effect =
    | StartGraphics                      // create the window and run `create_graphics` with the proxy
    | RequestRedraw
    | ExitLoop
    | Gpu(cmds: seq<Graphics.GpuCommand>)

  predicate PhaseValid(p: Phase) {
    p.ReadyPhase? ==> Graphics.StateValid(p.g)
  }

  /** A delivered `Graphics` comes from `create_graphics`, so it is valid. */
  predicate EventValid(ev: AppEvent) {
    ev.UserEvent? ==> Graphics.StateValid(ev.g)
  }

  /** `App::new` */
  function NewPhase(): Phase { InitPhase(Some(EventLoopProxy)) }

  /** One handler call: the next phase and the effects it asks for, in order. */
  function Step(p: Phase, ev: AppEvent): (r: (Phase, seq<Effect>))
    requires PhaseValid(p) && EventValid(ev)
    ensures PhaseValid(r.0)
  {
    match ev
    case Resumed =>
      if p.InitPhase? && p.proxy.Some? then (InitPhase(None), [StartGraphics]) else (p, [])
    case UserEvent(g) =>
      (ReadyPhase(g), [RequestRedraw])
    case Window(e) =>
      (match e
       case Resized(w, h) =>
         if p.ReadyPhase? then
           var g' := Graphics.AfterResize(p.g, w, h);
           (ReadyPhase(g'), [Gpu(Graphics.ResizeCommands(g'))])
         else (p, [])
       case RedrawRequested =>
         if p.ReadyPhase? then (p, [Gpu(Graphics.FrameCommands(p.g))]) else (p, [])
       case CloseRequested =>
         (p, [ExitLoop])
       case _ =>
         if p.ReadyPhase? then (ReadyPhase(Graphics.AfterWindowEvent(p.g, e)), []) else (p, []))
    case Device(d) =>
      if p.ReadyPhase? then (ReadyPhase(Graphics.AfterDeviceEvent(p.g, d)), []) else (p, [])
    case AboutToWait =>
      if p.ReadyPhase? then (p, [RequestRedraw]) else (p, [])
  }

  predicate AllValid(evs: seq<AppEvent>) {
    forall i :: 0 <= i < |evs| ==> EventValid(evs[i])
  }

  /** A run of handler calls: the final phase and every effect asked for. */
  function Run(p: Phase, evs: seq<AppEvent>): (r: (Phase, seq<Effect>))
    requires PhaseValid(p) && AllValid(evs)
    ensures PhaseValid(r.0)
    decreases |evs|
  {
    if evs == [] then (p, [])
    else
      var first := Step(p, evs[0]);
      var rest := Run(first.0, evs[1..]);
      (rest.0, first.1 + rest.1)
  }

  function CountStarts(effects: seq<Effect>): nat
    decreases |effects|
  {
    if effects == [] then 0
    else (if effects[0] == StartGraphics then 1 else 0) + CountStarts(effects[1..])
  }

  lemma {:induction false} CountStartsAppend(a: seq<Effect>, b: seq<Effect>)
    ensures CountStarts(a + b) == CountStarts(a) + CountStarts(b)
    decreases |a|
  {
    if a != [] {
      CountStartsAppend(a[1..], b);
      assert (a + b)[1..] == a[1..] + b;
    } else {
      assert a + b == b;
    }
  }

  predicate HoldsProxy(p: Phase) { p.InitPhase? && p.proxy.Some? }

  /** Once the proxy is gone it never comes back, and graphics creation is never started again. */
  lemma {:induction false} NoProxyNoStart(p: Phase, evs: seq<AppEvent>)
    requires PhaseValid(p) && AllValid(evs) && !HoldsProxy(p)
    ensures !HoldsProxy(Run(p, evs).0)
    ensures CountStarts(Run(p, evs).1) == 0
    decreases |evs|
  {
    if evs != [] {
      var first := Step(p, evs[0]);
      assert CountStarts(first.1) == 0;
      NoProxyNoStart(first.0, evs[1..]);
      CountStartsAppend(first.1, Run(first.0, evs[1..]).1);
    }
  }

  /** Whatever the events, graphics creation is started at most once. */
  lemma {:induction false} StartsAtMostOnce(p: Phase, evs: seq<AppEvent>)
    requires PhaseValid(p) && AllValid(evs)
    ensures CountStarts(Run(p, evs).1) <= 1
    decreases |evs|
  {
    if evs != [] {
      var first := Step(p, evs[0]);
      var rest := Run(first.0, evs[1..]);
      CountStartsAppend(first.1, rest.1);
      if HoldsProxy(first.0) {
        assert CountStarts(first.1) == 0;
        StartsAtMostOnce(first.0, evs[1..]);
      } else {
        assert CountStarts(first.1) <= 1;
        NoProxyNoStart(first.0, evs[1..]);
      }
    } else {
      assert CountStarts([]) == 0;
    }
  }

  /** From `App::new`, the first `resumed` starts graphics creation and takes the proxy. */
  lemma FirstResumedStarts()
    ensures Step(NewPhase(), Resumed) == (InitPhase(None), [StartGraphics])
    ensures Step(InitPhase(None), Resumed) == (InitPhase(None), [])
  {
  }

  /** Before `Ready`, window events other than a close request, device events and
      idle notifications change nothing and ask for nothing. */
  lemma InitIgnoresEvents(p: Phase, ev: AppEvent)
    requires p.InitPhase?
    requires ev.Device? || ev.AboutToWait? || (ev.Window? && !ev.e.CloseRequested?)
    ensures Step(p, ev) == (p, [])
  {
  }

  /** A close request exits the loop in either state and changes nothing. */
  lemma CloseAlwaysExits(p: Phase)
    requires PhaseValid(p)
    ensures Step(p, Window(Graphics.CloseRequested)) == (p, [ExitLoop])
  {
  }

  /** A delivered `Graphics` makes the application ready, from either state, and asks for a redraw. */
  lemma UserEventMakesReady(p: Phase, g: Graphics.GraphicsState)
    requires PhaseValid(p) && Graphics.StateValid(g)
    ensures Step(p, UserEvent(g)) == (ReadyPhase(g), [RequestRedraw])
  {
  }

  /** Once ready, window events route by kind: resize to `resize`, redraw to `draw`,
      anything else but close to `handle_window_event`. */
  lemma ReadyRoutesWindowEvents(g: Graphics.GraphicsState, e: Graphics.WindowEvent)
    requires Graphics.StateValid(g)
    ensures e.Resized? ==>
      Step(ReadyPhase(g), Window(e)) ==
        (ReadyPhase(Graphics.AfterResize(g, e.width, e.height)),
         [Gpu(Graphics.ResizeCommands(Graphics.AfterResize(g, e.width, e.height)))])
    ensures e.RedrawRequested? ==> Step(ReadyPhase(g), Window(e)) == (ReadyPhase(g), [Gpu(Graphics.FrameCommands(g))])
    ensures !e.Resized? && !e.RedrawRequested? && !e.CloseRequested? ==>
      Step(ReadyPhase(g), Window(e)) == (ReadyPhase(Graphics.AfterWindowEvent(g, e)), [])
  {
  }

  // ---------------------------------------------------------------------------
  // The `App` object
  // ---------------------------------------------------------------------------

  class App {
    var state: State
    /** How many times graphics creation has been started. */
    ghost var starts: nat

    ghost function Footprint(): set<object>
      reads this
    {
      if state.Ready? then {state.gfx} else {}
    }

    /** Graphics creation has started at most once, and not at all while the proxy is held. */
    ghost predicate Valid()
      reads this, Footprint()
    {
      (state.Ready? ==> state.gfx.Valid()) &&
      starts <= 1 &&
      (state.Init? && state.proxy.Some? ==> starts == 0)
    }

    function CurrentPhase(): Phase
      reads this, Footprint()
    {
      match state
      case Ready(gfx) => ReadyPhase(gfx.State())
      case Init(proxy) => InitPhase(proxy)
    }

    /** `App::new` */
    constructor ()
      ensures Valid() && starts == 0
      ensures state == Init(Some(EventLoopProxy)) && CurrentPhase() == NewPhase()
    {
      state := Init(Some(EventLoopProxy));
      starts := 0;
    }

    /** `resumed`: only in `Init` with the proxy present, take it and start graphics creation. */
    method Resumed() returns (effects: seq<Effect>)
      requires Valid()
      modifies this
      ensures Valid()
      ensures (CurrentPhase(), effects) == Step(old(CurrentPhase()), AppEvent.Resumed)
      ensures starts == old(starts) + CountStarts(effects)
    {
      effects := [];
      if state.Init? {
        if state.proxy.Some? {
          state := Init(None);
          starts := starts + 1;
          effects := [StartGraphics];
        }
      }
    }

    /** `user_event`: request a redraw and become `Ready` with the delivered graphics. */
    method UserEvent(graphics: Graphics.Graphics) returns (effects: seq<Effect>)
      requires Valid() && graphics.Valid()
      modifies this
      ensures Valid() && starts == old(starts)
      ensures state == Ready(graphics)
      ensures (CurrentPhase(), effects) == Step(old(CurrentPhase()), AppEvent.UserEvent(graphics.State()))
    {
      effects := [RequestRedraw];
      state := Ready(graphics);
    }

    /** `App::draw` */
    method Draw() returns (effects: seq<Effect>)
      requires Valid()
      ensures effects == Step(CurrentPhase(), Window(Graphics.RedrawRequested)).1
    {
      effects := [];
      if state.Ready? {
        var cmds := state.gfx.Draw();
        effects := [Gpu(cmds)];
      }
    }

    /** `App::resized` */
    method Resized(w: Model.u32, h: Model.u32) returns (effects: seq<Effect>)
      requires Valid()
      modifies Footprint()
      ensures Valid() && state == old(state) && starts == old(starts)
      ensures (CurrentPhase(), effects) == Step(old(CurrentPhase()), Window(Graphics.Resized(w, h)))
    {
      effects := [];
      if state.Ready? {
        var cmds := state.gfx.Resize(w, h);
        effects := [Gpu(cmds)];
      }
    }

    /** `window_event` */
    method WindowEvent(e: Graphics.WindowEvent) returns (effects: seq<Effect>)
      requires Valid()
      modifies Footprint()
      ensures Valid() && state == old(state) && starts == old(starts)
      ensures (CurrentPhase(), effects) == Step(old(CurrentPhase()), Window(e))
    {
      match e {
        case Resized(w, h) =>
          effects := Resized(w, h);
        case RedrawRequested =>
          effects := Draw();
        case CloseRequested =>
          effects := [ExitLoop];
        case _ =>
          effects := [];
          if state.Ready? {
            state.gfx.HandleWindowEvent(e);
          }
      }
    }

    /** `device_event` */
    method DeviceEvent(d: Graphics.DeviceEvent) returns (effects: seq<Effect>)
      requires Valid()
      modifies Footprint()
      ensures Valid() && state == old(state) && starts == old(starts)
      ensures (CurrentPhase(), effects) == Step(old(CurrentPhase()), Device(d))
    {
      effects := [];
      if state.Ready? {
        state.gfx.HandleDeviceEvent(d);
      }
    }

    /** `about_to_wait`: ask for the next frame once ready. */
    method AboutToWait() returns (effects: seq<Effect>)
      requires Valid()
      ensures (CurrentPhase(), effects) == Step(CurrentPhase(), AppEvent.AboutToWait)
    {
      effects := [];
      if state.Ready? {
        effects := [RequestRedraw];
      }
    }
  }
}
