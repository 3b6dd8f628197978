/** A session of the plugin: any sequence of handler calls, ticks and changes of the game
    over the shared state in place is a run of the state machine. */
module Session {
  import Screen
  import Wire
  import Frame
  import M = Model
  import opened Bytes
  import opened Live
  import Handlers
  import Plugin

  /** One call into the plugin, or one change the game makes by itself. */
  datatype Input = Opening(h: M.Conn, protocolOk: bool, nick: M.Nick, admin: bool, browser: M.Browser, e: M.Env)
                 | Closing(h: M.Conn, e: M.Env)
                 | Saying(h: M.Conn, data: seq<Byte>, e: M.Env)
                 | Updating(fed: Wire.Pos, fedGps: Frame.Gps, st: Frame.Setting, px: Plugin.Grid,
                            render: (M.Conn, Frame.Gps, Wire.Pos) -> Plugin.Rendered)
                 | Changing(w: M.World, gps: Frame.Gps)

  predicate Sane(d: Screen.Dims) { 0 <= d.w <= 256 && 0 <= d.h <= 256 }

  predicate SaneInput(i: Input) { i.Changing? ==> Sane(i.w.dims) }

  /** The event an input is, up to the frames a tick renders. */
  predicate Means(i: Input, ev: M.Event) {
    match i
    case Opening(h, ok, nick, admin, b, e) => ev == M.Open(h, ok, nick, admin, b, e)
    case Closing(h, e) => ev == M.Close(h, e)
    case Saying(h, data, e) => ev == M.Message(h, data, e)
    case Updating(fed, _, _, _, _) => ev.GameTick? && ev.f.fed == fed
    case Changing(w, _) => ev == M.Game(w)
  }

  /** One event on server and game, whatever the browsers show. */
  ghost predicate Leads(s: M.Server, w: M.World, ev: M.Event, s': M.Server, w': M.World) {
    var next := M.Step(M.System(s, w, map[]), ev);
    s' == next.server && w' == next.world
  }

  lemma BrowsersDoNotMatter(sys: M.System, ev: M.Event, s': M.Server, w': M.World)
    requires Leads(sys.server, sys.world, ev, s', w')
    ensures M.Step(sys, ev).server == s' && M.Step(sys, ev).world == w'
  {
  }

  /** The client map in some order. */
  method InOrder(keys: set<M.Conn>) returns (order: seq<M.Conn>)
    ensures Handlers.Lists(order, keys)
  {
    order := [];
    var todo := keys;
    while todo != {}
      invariant todo <= keys && Handlers.Lists(order, keys - todo)
      decreases todo
    {
      var k :| k in todo;
      order, todo := order + [k], todo - {k};
    }
  }

  method Say(g: Globals, h: M.Conn, data: seq<Byte>, e: M.Env, order: seq<M.Conn>)
    requires g.Valid() && Sane(g.dims) && Handlers.Lists(order, g.clients.Keys)
    modifies g.Footprint()
    ensures g.Valid() && g.Kept() && Leads(old(g.State()), old(g.World()), M.Message(h, data, e), g.State(), g.World())
  {
    var _ := Handlers.OnMessage(g, h, data, e, order);
  }

  method StoreGame(g: Globals, w: M.World, gps: Frame.Gps)
    requires g.Valid() && gps.mouse.x == w.mouseX && gps.mouse.y == w.mouseY
    modifies g`window, g`dims, g`size, g`gps
    ensures g.Valid() && g.clients == old(g.clients) && g.State() == old(g.State()) && g.World() == w
  {
    g.window, g.dims, g.size, g.gps := w.window, w.dims, w.size, gps;
    g.QuietStates();
  }

  method Change(g: Globals, w: M.World, gps: Frame.Gps)
    requires g.Valid()
    modifies g`window, g`dims, g`size, g`gps
    ensures g.Valid() && g.Footprint() == old(g.Footprint()) && g.World() == w
    ensures Leads(old(g.State()), old(g.World()), M.Game(w), g.State(), g.World())
  {
    StoreGame(g, w, gps.(mouse := gps.mouse.(x := w.mouseX, y := w.mouseY)));
  }

  method Join(g: Globals, h: M.Conn, ok: bool, nick: M.Nick, admin: bool, b: M.Browser, e: M.Env)
    requires g.Valid()
    modifies g`clients
    ensures g.Valid() && g.dims == old(g.dims) && fresh(g.Footprint() - old(g.Footprint()))
    ensures Leads(old(g.State()), old(g.World()), M.Open(h, ok, nick, admin, b, e), g.State(), g.World())
  {
    var _ := Handlers.OnOpen(g, h, ok, nick, admin, e);
  }

  method Leave(g: Globals, h: M.Conn, e: M.Env)
    requires g.Valid()
    modifies g.Footprint()
    ensures g.Valid() && g.dims == old(g.dims) && g.Footprint() <= old(g.Footprint())
    ensures Leads(old(g.State()), old(g.World()), M.Close(h, e), g.State(), g.World())
  {
    ghost var w := g.World();
    Handlers.OnClose(g, h, e);
    assert g.dims == w.dims;
  }

  /** Any one input. */
  method Perform(g: Globals, i: Input) returns (ghost ev: M.Event)
    requires g.Valid() && Sane(g.dims) && SaneInput(i)
    modifies g.Footprint()
    ensures g.Valid() && Sane(g.dims) && fresh(g.Footprint() - old(g.Footprint()))
    ensures Means(i, ev) && Leads(old(g.State()), old(g.World()), ev, g.State(), g.World())
  {
    match i
    case Opening(h, ok, nick, admin, b, e) =>
      ev := M.Open(h, ok, nick, admin, b, e);
      Join(g, h, ok, nick, admin, b, e);
    case Closing(h, e) =>
      ev := M.Close(h, e);
      Leave(g, h, e);
    case Saying(h, data, e) =>
      ev := M.Message(h, data, e);
      Ask(g, h, data, e);
    case Updating(fed, fedGps, st, px, render) =>
      ghost var f;
      f := Update(g, fed, fedGps, st.(dims := g.dims), px, render);
      ev := M.GameTick(f);
    case Changing(w, gps) =>
      ev := M.Game(w);
      Change(g, w, gps);
  }

  method Ask(g: Globals, h: M.Conn, data: seq<Byte>, e: M.Env)
    requires g.Valid() && Sane(g.dims)
    modifies g.Footprint()
    ensures g.Valid() && g.Kept() && Leads(old(g.State()), old(g.World()), M.Message(h, data, e), g.State(), g.World())
  {
    var order := InOrder(g.clients.Keys);
    g.QuietStates();
    Say(g, h, data, e, order);
  }

  method Update(g: Globals, fed: Wire.Pos, fedGps: Frame.Gps, st: Frame.Setting, px: Plugin.Grid,
                render: (M.Conn, Frame.Gps, Wire.Pos) -> Plugin.Rendered)
    returns (ghost f: M.Frames)
    requires g.Valid() && Sane(g.dims) && st.dims == g.dims
    modifies g.Footprint()
    ensures g.Valid() && g.dims == old(g.dims) && g.Footprint() == old(g.Footprint()) && f.fed == fed
    ensures Leads(old(g.State()), old(g.World()), M.GameTick(f), g.State(), g.World())
  {
    var out;
    ghost var shots, drawn;
    out, f, shots, drawn := Plugin.OnUpdate(g, fed, fedGps, st, px, render);
  }

  /** The server and the game are where the system is. */
  ghost predicate Follows(g: Globals, s: M.System)
    reads g, g.Footprint()
  {
    g.Valid() && Sane(g.dims) && g.State() == s.server && g.World() == s.world
  }

  method PerformIn(g: Globals, i: Input, ghost s: M.System) returns (ghost ev: M.Event)
    requires Follows(g, s) && SaneInput(i)
    modifies g.Footprint()
    ensures Means(i, ev) && Follows(g, M.Step(s, ev)) && fresh(g.Footprint() - old(g.Footprint()))
  {
    ev := Perform(g, i);
    BrowsersDoNotMatter(s, ev, g.State(), g.World());
  }

  lemma RunSnoc(s: M.System, evs: seq<M.Event>, ev: M.Event)
    ensures M.Run(s, evs + [ev]) == M.Step(M.Run(s, evs), ev)
  {
    assert (evs + [ev])[..|evs|] == evs;
  }

  method Begin(cfg: M.Config, w: M.World, gps: Frame.Gps, ghost s0: M.System) returns (g: Globals)
    requires w.mouseX == gps.mouse.x && w.mouseY == gps.mouse.y && Sane(w.dims) && s0 == M.InitSystem(cfg, w)
    ensures fresh(g.Footprint()) && Follows(g, s0)
  {
    g := new Globals(cfg, w, gps);
  }

  method PlayNext(g: Globals, i: Input, ghost s0: M.System, ghost evs: seq<M.Event>) returns (ghost more: seq<M.Event>)
    requires Follows(g, M.Run(s0, evs)) && SaneInput(i)
    modifies g.Footprint()
    ensures |more| == |evs| + 1 && more[..|evs|] == evs && Means(i, more[|evs|])
    ensures Follows(g, M.Run(s0, more)) && fresh(g.Footprint() - old(g.Footprint()))
  {
    ghost var ev := PerformIn(g, i, M.Run(s0, evs));
    RunSnoc(s0, evs, ev);
    more := evs + [ev];
  }

  /** The inputs from number n on, after the events so far. */
  method PlayOn(g: Globals, inputs: seq<Input>, n: nat, ghost s0: M.System, ghost evs: seq<M.Event>)
    returns (ghost all: seq<M.Event>)
    requires n <= |inputs| && Follows(g, M.Run(s0, evs)) && forall i :: 0 <= i < |inputs| ==> SaneInput(inputs[i])
    requires |evs| == n && forall i :: 0 <= i < n ==> Means(inputs[i], evs[i])
    modifies g.Footprint()
    ensures |all| == |inputs| && forall i :: 0 <= i < |inputs| ==> Means(inputs[i], all[i])
    ensures Follows(g, M.Run(s0, all))
    decreases |inputs| - n
  {
    all := evs;
    if n < |inputs| {
      ghost var more := PlayNext(g, inputs[n], s0, evs);
      MeansOn(inputs, evs, more);
      all := PlayOn(g, inputs, n + 1, s0, more);
    }
  }

  lemma MeansOn(inputs: seq<Input>, evs: seq<M.Event>, more: seq<M.Event>)
    requires |more| == |evs| + 1 <= |inputs| && more[..|evs|] == evs && Means(inputs[|evs|], more[|evs|])
    requires forall i :: 0 <= i < |evs| ==> Means(inputs[i], evs[i])
    ensures forall i :: 0 <= i < |more| ==> Means(inputs[i], more[i])
  {
    forall i | 0 <= i < |evs| ensures Means(inputs[i], more[i]) {
      assert more[i] == more[..|evs|][i];
    }
  }

  /** Any session from start-up is a run of the state machine, input for event. */
  method Play(cfg: M.Config, w: M.World, gps: Frame.Gps, inputs: seq<Input>)
    returns (g: Globals, ghost evs: seq<M.Event>)
    requires w.mouseX == gps.mouse.x && w.mouseY == gps.mouse.y && Sane(w.dims)
    requires forall i :: 0 <= i < |inputs| ==> SaneInput(inputs[i])
    ensures |evs| == |inputs| && forall i :: 0 <= i < |inputs| ==> Means(inputs[i], evs[i])
    ensures Follows(g, M.Run(M.InitSystem(cfg, w), evs))
  {
    ghost var s0 := M.InitSystem(cfg, w);
    g := Begin(cfg, w, gps, s0);
    evs := PlayOn(g, inputs, 0, s0, []);
  }
}
