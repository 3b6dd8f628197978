/** plugin_onupdate: the game thread's tick over the shared state (server/webfort.cpp). */
module Plugin {
  import Effects
  import M = Model
  import opened Bytes
  import opened Screen
  import opened Input
  import opened Wire
  import opened Frame
  import opened Live
  import Cursor

  // ----- the driver's camera -----

  ghost function DriverDirtied(s: M.Server): M.Server {
    if s.active.Some? && s.active.value in s.clients then
      s.(clients := s.clients[s.active.value := s.clients[s.active.value].(mod := AllDirty())])
    else s
  }

  ghost function DriverAt(s: M.Server, p: Pos): M.Server {
    if s.active.Some? && s.active.value in s.clients then
      s.(clients := s.clients[s.active.value := s.clients[s.active.value].(cam := p, hasOwnCam := true)])
    else s
  }

  ghost function Driven(s: M.Server, w: M.World): M.Server {
    s.(pending := M.ORIGIN, clients := map h | h in s.clients :: M.Promote(s, w, h, s.clients[h]))
  }

  lemma DrivenIs(s: M.Server, w: M.World, s1: M.Server, s2: M.Server)
    requires s1 == (if s.pending == M.ORIGIN then s else DriverDirtied(s.(pending := M.ORIGIN)))
    requires s2 == DriverAt(s1, M.DrainedWindow(s, w))
    ensures s2 == Driven(s, w)
  {
    forall h | h in s.clients ensures h in s2.clients && s2.clients[h] == M.Promote(s, w, h, s.clients[h]) {
    }
    assert s2.clients.Keys == s.clients.Keys;
    assert s2.clients == Driven(s, w).clients;
  }

  method DirtyDriver(g: Globals)
    requires g.Valid()
    modifies g.Footprint()
    ensures g.Valid() && g.Kept() && g.State() == DriverDirtied(old(g.State()))
  {
    if g.active.Some? && g.active.value in g.clients {
      g.clients[g.active.value].ClearMod();
      g.OnlyClientState(g.active.value);
    }
  }

  method FollowWindow(g: Globals)
    requires g.Valid()
    modifies g.Footprint()
    ensures g.Valid() && g.Kept()
    ensures g.State() == DriverAt(old(g.State()), g.window)
  {
    if g.active.Some? && g.active.value in g.clients {
      var acl := g.clients[g.active.value];
      acl.Follow(g.window);
      g.OnlyClientState(g.active.value);
    }
  }

  method MoveWindow(g: Globals, d: Pos)
    requires g.Valid()
    modifies g`window
    ensures g.Valid() && g.State() == old(g.State()) && g.clients == old(g.clients) && g.gps == old(g.gps)
    ensures g.World() == old(g.World()).(window := M.ClampCam(M.Shift(old(g.window), d), g.size, g.dims))
    ensures g.Footprint() == old(g.Footprint())
  {
    g.window := Clamp(Pos(g.window.x + d.x, g.window.y + d.y, g.window.z + d.z), g.size, g.dims);
    g.QuietStates();
  }

  method TakePending(g: Globals) returns (d: Pos)
    requires g.Valid()
    modifies g`pending
    ensures g.Valid() && g.Kept() && d == old(g.pending)
    ensures g.State() == old(g.State()).(pending := M.ORIGIN)
  {
    d := g.pending;
    g.pending := M.ORIGIN;
    g.QuietStates();
  }

  method DrainDeltas(g: Globals)
    requires g.Valid()
    modifies g.Footprint()
    ensures g.Valid() && g.clients == old(g.clients) && g.Footprint() == old(g.Footprint()) && g.gps == old(g.gps)
    ensures var s := old(g.State());
      g.State() == if s.pending == M.ORIGIN then s else DriverDirtied(s.(pending := M.ORIGIN))
    ensures g.World() == old(g.World()).(window := M.DrainedWindow(old(g.State()), old(g.World())))
  {
    var d := TakePending(g);
    if d.x != 0 || d.y != 0 || d.z != 0 {
      MoveWindow(g, d);
      DirtyDriver(g);
    }
  }

  /** Queued deltas reach the viewport, and the driver's camera follows it. */
  method DriveCamera(g: Globals)
    requires g.Valid()
    modifies g.Footprint()
    ensures g.Valid() && g.clients == old(g.clients) && g.Footprint() == old(g.Footprint()) && g.gps == old(g.gps)
    ensures g.State() == Driven(old(g.State()), old(g.World()))
    ensures g.World() == old(g.World()).(window := M.DrainedWindow(old(g.State()), old(g.World())))
  {
    ghost var s, w := g.State(), g.World();
    DrainDeltas(g);
    ghost var s1 := g.State();
    FollowWindow(g);
    DrivenIs(s, w, s1, g.State());
  }

  // ----- queued input -----

  method FlushKeys(g: Globals) returns (out: seq<SdlEvent>)
    requires g.Valid()
    modifies g`keys
    ensures g.Valid() && g.Kept() && g.State() == old(g.State()).(keys := [])
    ensures Replay([], out) == Some([]) && Typed(out) == TypedBy(old(g.keys))
  {
    out := FlushInputQueue(g.keys);
    g.keys := [];
    g.QuietStates();
  }

  /** How many pixels a tile has. */
  datatype Grid = Grid(w: nat, h: nat)

  /** The mouse fields for a pointer resting on a tile. */
  function MouseOn(x: int, y: int, px: Grid): Mouse {
    Mouse(x, y, x * px.w + px.w / 2, y * px.h + px.h / 2)
  }

  /** The last event to place the virtual pointer. */
  ghost predicate LastMove(mice: seq<MouseEvent>, i: int) {
    0 <= i < |mice| && Effects.Places(mice[i]) && forall j :: i < j < |mice| ==> !Effects.Places(mice[j])
  }

  /** The precise position is the middle of the pointer's tile. */
  lemma PointerInTile(x: int, y: int, px: Grid)
    requires px.w > 0 && px.h > 0
    ensures var m := MouseOn(x, y, px);
      && m.x == x && m.y == y
      && x * px.w <= m.preciseX < x * px.w + px.w && y * px.h <= m.preciseY < y * px.h + px.h
      && px.w - 1 <= 2 * (m.preciseX - x * px.w) <= px.w && px.h - 1 <= 2 * (m.preciseY - y * px.h) <= px.h
  {
  }

  /** The virtual pointer and the game's mouse after a list of events. */
  method ApplyMice(local: seq<MouseEvent>, x0: int, y0: int, m0: Mouse, px: Grid) returns (x: int, y: int, m: Mouse)
    ensures (x, y) == M.FlushMice(local, x0, y0)
    ensures forall i :: LastMove(local, i) ==> (x, y) == (local[i].x, local[i].y)
    ensures (forall j :: 0 <= j < |local| ==> !Effects.Places(local[j])) ==> (x, y) == (x0, y0)
    ensures m == if local == [] then m0 else MouseOn(local[|local| - 1].x, local[|local| - 1].y, px)
  {
    forall i ensures LastMove(local, i) ==> M.FlushMice(local, x0, y0) == (local[i].x, local[i].y) {
      Effects.RestsOn(local, x0, y0, i);
    }
    Effects.RestsOn(local, x0, y0, 0);
    x, y, m := x0, y0, m0;
    for i := 0 to |local|
      invariant M.FlushMice(local, x0, y0) == M.FlushMice(local[i..], x, y)
      invariant m == if i == 0 then m0 else MouseOn(local[i - 1].x, local[i - 1].y, px)
    {
      var ev := local[i];
      assert local[i..][0] == ev && local[i..][1..] == local[i + 1..];
      if ev.kind.Move? || ev.kind.Down? {
        x, y := ev.x, ev.y;
      }
      m := MouseOn(ev.x, ev.y, px);
    }
  }

  ghost function MouseFlushed(s: M.Server): M.Server {
    var tile := M.FlushMice(s.mice, s.tileX, s.tileY);
    s.(mice := [], tileX := tile.0, tileY := tile.1)
  }

  /** Drains the mouse queue and stamps the virtual pointer; feeding the game may have
      moved the viewport to fed and redrawn its screen as fedGps. */
  method FlushMouse(g: Globals, fed: Pos, fedGps: Gps, px: Grid)
    requires g.Valid()
    modifies g`mice, g`tileX, g`tileY, g`gps, g`window
    ensures g.Valid() && g.clients == old(g.clients) && g.Footprint() == old(g.Footprint())
    ensures g.State() == MouseFlushed(old(g.State()))
    ensures var m := M.StampedMouse(old(g.State()), old(g.World()));
      g.World() == old(g.World()).(window := fed, mouseX := m.0, mouseY := m.1)
    ensures g.gps == fedGps.(mouse := g.gps.mouse)
  {
    var x, y, m := ApplyMice(g.mice, g.tileX, g.tileY, g.gps.mouse, px);
    if x >= 0 {
      m := MouseOn(x, y, px);
    }
    g.QuietStates();
    StorePointer(g, x, y);
    StampMouse(g, m, fed, fedGps);
  }

  method StorePointer(g: Globals, x: int, y: int)
    requires g.Valid()
    modifies g`mice, g`tileX, g`tileY
    ensures g.Valid() && g.Kept() && g.State() == old(g.State()).(mice := [], tileX := x, tileY := y)
  {
    g.mice := [];
    g.tileX, g.tileY := x, y;
    g.QuietStates();
  }

  method StampMouse(g: Globals, m: Mouse, fed: Pos, fedGps: Gps)
    requires g.Valid()
    modifies g`gps, g`window
    ensures g.Valid() && g.clients == old(g.clients) && g.Footprint() == old(g.Footprint())
    ensures g.State() == old(g.State()) && g.gps == fedGps.(mouse := m)
    ensures g.World() == old(g.World()).(window := fed, mouseX := m.x, mouseY := m.y)
  {
    g.gps := fedGps.(mouse := m);
    g.window := fed;
    g.QuietStates();
  }

  // ----- the shared frame -----

  /** The clients once those of todo have been given the shared frame. */
  ghost function CapturedBut(m: map<M.Conn, M.Client>, todo: set<M.Conn>, sc: Buffer, scPrev: Buffer, d: Dims,
                             cap: Dims):
    map<M.Conn, M.Client>
  {
    map h | h in m :: if h in todo || m[h].hasOwnCam then m[h] else M.CaptureClient(m[h], sc, scPrev, d, cap)
  }

  /** One client of the capture loop. */
  method CaptureOne(g: Globals, h: M.Conn)
    requires g.Valid() && h in g.clients
    modifies g.clients[h].mod, g.clients[h].ownSc
    ensures g.Valid() && g.Kept()
    ensures var s := old(g.State());
      var c := s.clients[h];
      g.State() == if c.hasOwnCam then s else
        s.(clients := s.clients[h := M.CaptureClient(c, s.sc, s.scPrev, g.dims, s.cap)])
  {
    if !g.clients[h].hasOwnCam {
      g.clients[h].Capture(g.sc, g.scPrev, g.dims, g.cap);
      g.OnlyClientState(h);
    }
  }

  method CaptureAll(g: Globals)
    requires g.Valid()
    modifies g.Footprint()
    ensures g.Valid() && g.Kept()
    ensures var s := old(g.State());
      g.State() == s.(clients := CapturedBut(s.clients, {}, s.sc, s.scPrev, g.dims, s.cap))
  {
    ghost var s := g.State();
    var todo := g.clients.Keys;
    assert CapturedBut(s.clients, todo, s.sc, s.scPrev, g.dims, s.cap) == s.clients;
    while todo != {}
      invariant todo <= g.clients.Keys && g.Valid() && g.Kept()
      invariant g.State() == s.(clients := CapturedBut(s.clients, todo, s.sc, s.scPrev, g.dims, s.cap))
      decreases todo
    {
      var h :| h in todo;
      CapturedStep(s, todo, h, g.dims);
      CaptureOne(g, h);
      todo := todo - {h};
    }
  }

  lemma CapturedStep(s: M.Server, todo: set<M.Conn>, h: M.Conn, d: Dims)
    requires h in todo && h in s.clients
    ensures var m := CapturedBut(s.clients, todo, s.sc, s.scPrev, d, s.cap);
      && h in m && m[h] == s.clients[h]
      && CapturedBut(s.clients, todo - {h}, s.sc, s.scPrev, d, s.cap)
      == if m[h].hasOwnCam then m else m[h := M.CaptureClient(m[h], s.sc, s.scPrev, d, s.cap)]
  {
  }

  ghost function Captured(s: M.Server, frame: Buffer, d: Dims): M.Server {
    var sc := Overwrite(s.sc, frame, d.Total());
    if !d.Valid() then s else
    s.(sc := sc, scPrev := Overwrite(s.scPrev, sc, d.Total()), cap := d,
       clients := CapturedBut(s.clients, {}, sc, s.scPrev, d, s.cap))
  }

  method FillShared(g: Globals, st: Setting)
    requires g.Valid() && st.dims == g.dims
    modifies g.sc
    ensures g.Valid() && g.Kept()
    ensures g.State() == old(g.State()).(sc := Overwrite(old(g.State()).sc, FrameOf(g.gps, st), g.dims.Total()))
  {
    var _ := FillScreenBuffer(g.gps, st, g.sc);
    g.ClientsApart();
  }

  method RememberShared(g: Globals)
    requires g.Valid()
    modifies g.scPrev, g`cap
    ensures g.Valid() && g.Kept()
    ensures var s := old(g.State());
      g.State() == s.(scPrev := Overwrite(s.scPrev, s.sc, g.dims.Total()), cap := g.dims)
  {
    CopyTiles(g.scPrev, g.sc, g.dims.Total());
    g.cap := g.dims;
    g.ClientsApart();
  }

  /** capture_screen_buffer */
  method CaptureScreenBuffer(g: Globals, st: Setting)
    requires g.Valid() && st.dims == g.dims
    modifies g.Footprint()
    ensures g.Valid() && g.Kept() && g.State() == Captured(old(g.State()), FrameOf(g.gps, st), g.dims)
  {
    if !g.dims.Valid() {
      return;
    }
    FillShared(g, st);
    CaptureAll(g);
    RememberShared(g);
  }

  // ----- extra render passes -----

  /** What the game's render call leaves behind: any screen, overlay, textures, mouse and
      viewport at all. */
  datatype Rendered = Rendered(gps: Gps, window: Pos)

  /** One extra pass: what render was given, where, and the frame composed from its result. */
  datatype Shot = Shot(asked: Gps, at: Pos, frame: Buffer)

  /** Everything the passes promise to put back. */
  ghost predicate Restored(was: Gps, now: Gps, n: nat)
    requires n <= CELLS
  {
    && now.screen[..n] == was.screen[..n] && now.topInUse == was.topInUse
    && (was.topInUse ==> now.top[..n] == was.top[..n]) && now.mouse == was.mouse
  }

  /** Where the driver's pointer is for a spectator, or hidden. */
  function MouseFor(tile: (int, int), w: M.World, c: M.Client, px: Grid): Mouse {
    var p := Cursor.Stamped(tile, w, c);
    if p.Some? then MouseOn(p.value.0, p.value.1, px) else Mouse(-1, -1, -1, -1)
  }

  lemma WithinTile(x: int, w: nat, p: int)
    requires w > 0 && x * w <= p < x * w + w
    ensures p / w == x
  {
    var q := p / w;
    MulMono(q + 1, x, w);
    MulMono(x + 1, q, w);
  }

  /** Inside the view the pointer rests on the tile where the driver's is in the world; outside,
      or with none placed, every field is -1. */
  lemma PointerForSpectator(tile: (int, int), w: M.World, c: M.Client, px: Grid)
    requires px.w > 0 && px.h > 0
    ensures var x, y := w.window.x + tile.0 - c.cam.x, w.window.y + tile.1 - c.cam.y;
      var m := MouseFor(tile, w, c, px);
      if tile.0 >= 0 && 0 <= x < w.dims.w && 0 <= y < w.dims.h then
        m.x == x && m.y == y && m.preciseX / px.w == x && m.preciseY / px.h == y
      else m == Mouse(-1, -1, -1, -1)
  {
    var p := Cursor.Stamped(tile, w, c);
    if p.Some? {
      PointerInTile(p.value.0, p.value.1, px);
      WithinTile(p.value.0, px.w, MouseFor(tile, w, c, px).preciseX);
      WithinTile(p.value.1, px.h, MouseFor(tile, w, c, px).preciseY);
    }
  }

  /** A shot was taken at the client's camera, from the game's own screen, with the pointer
      moved into the client's view. */
  ghost predicate Genuine(shot: Shot, h: M.Conn, c: M.Client, was: Gps, tile: (int, int), w: M.World,
                          st: Setting, px: Grid, render: (M.Conn, Gps, Pos) -> Rendered)
    requires w.dims.Fits()
  {
    && Restored(was, shot.asked.(mouse := was.mouse), w.dims.Total()) && shot.asked.mouse == MouseFor(tile, w, c, px)
    && shot.at == c.cam && shot.frame == FrameOf(render(h, shot.asked, shot.at).gps, st)
  }

  /** Translates the driver's pointer into a spectator's view. */
  method TranslateMouse(tileX: int, tileY: int, save: Pos, cam: Pos, d: Dims, px: Grid, ghost w: M.World,
                        ghost c: M.Client)
    returns (m: Mouse)
    requires w.window == save && w.dims == d && c.cam == cam
    ensures m == MouseFor((tileX, tileY), w, c, px)
  {
    m := Mouse(-1, -1, -1, -1);
    if tileX >= 0 {
      var x, y := save.x + tileX - cam.x, save.y + tileY - cam.y;
      if x >= 0 && x < d.w && y >= 0 && y < d.h {
        m := MouseOn(x, y, px);
      }
    }
  }

  /** Saves, renders elsewhere, composes into dst, restores. */
  method ShootAndRestore(g: Globals, h: M.Conn, save: Pos, at: Pos, dst: array<Tile>, st: Setting, px: Grid,
                         render: (M.Conn, Gps, Pos) -> Rendered, ghost w: M.World, ghost c: M.Client)
    returns (ghost shot: Shot)
    requires dst.Length == CELLS && st.dims.Valid() && w.window == save && w.dims == st.dims && c.cam == at
    modifies g`window, g`gps, dst
    ensures Restored(old(g.gps), g.gps, st.dims.Total())
    ensures Genuine(shot, h, c, old(g.gps), (g.tileX, g.tileY), w, st, px, render)
    ensures dst[..] == Overwrite(old(dst[..]), shot.frame, st.dims.Total())
  {
    var n := st.dims.Total();
    var saveScreen := g.gps.screen[..n];
    var savedTopInUse := g.gps.topInUse;
    var saveTop := if g.gps.topInUse then g.gps.top[..n] else [];
    var saveMouse := g.gps.mouse;
    var m := TranslateMouse(g.tileX, g.tileY, save, at, st.dims, px, w, c);
    g.gps := g.gps.(mouse := m);
    g.window := at;
    var r := render(h, g.gps, g.window);
    shot := Shot(g.gps, at, FrameOf(r.gps, st));
    g.gps, g.window := r.gps, r.window;
    var _ := FillScreenBuffer(g.gps, st, dst);
    g.gps := g.gps.(screen := saveScreen + g.gps.screen[n..], topInUse := savedTopInUse, mouse := saveMouse);
    if saveTop != [] {
      g.gps := g.gps.(top := saveTop + g.gps.top[n..]);
    }
  }

  ghost function WithFrame(s: M.Server, h: M.Conn, frame: Buffer, n: nat): M.Server
    requires h in s.clients && n <= CELLS
  {
    s.(clients := s.clients[h := s.clients[h].(ownSc := Overwrite(s.clients[h].ownSc, frame, n))])
  }

  /** The render writes into one client's frame and nobody else's. */
  method RenderOnto(g: Globals, h: M.Conn, save: Pos, st: Setting, px: Grid,
                    render: (M.Conn, Gps, Pos) -> Rendered, ghost w: M.World, ghost cs: M.Client)
    returns (ghost shot: Shot)
    requires g.Valid() && h in g.clients && st.dims == g.dims && g.dims.Valid()
    requires cs == g.clients[h].State() && w.window == save && w.dims == g.dims
    modifies g`window, g`gps, g.clients[h].ownSc
    ensures g.OnlyClient(h) && Restored(old(g.gps), g.gps, g.dims.Total())
    ensures g.clients[h].State() == cs.(ownSc := Overwrite(cs.ownSc, shot.frame, g.dims.Total()))
    ensures Genuine(shot, h, cs, old(g.gps), (g.tileX, g.tileY), w, st, px, render)
  {
    var c := g.clients[h];
    shot := ShootAndRestore(g, h, save, c.cam, c.ownSc, st, px, render, w, cs);
    assert c.State() == cs.(ownSc := Overwrite(cs.ownSc, shot.frame, g.dims.Total()));
  }

  /** An extra pass for one client. */
  method ExtraRender(g: Globals, h: M.Conn, save: Pos, st: Setting, px: Grid,
                     render: (M.Conn, Gps, Pos) -> Rendered, ghost w: M.World, ghost cs: M.Client)
    returns (ghost shot: Shot)
    requires g.Valid() && h in g.clients && st.dims == g.dims && g.dims.Valid()
    requires cs == g.clients[h].State() && w.window == save && w.dims == g.dims
    modifies g`window, g`gps, g.clients[h].ownSc
    ensures g.Valid() && g.clients == old(g.clients) && g.Footprint() == old(g.Footprint())
    ensures g.dims == old(g.dims) && g.size == old(g.size) && Restored(old(g.gps), g.gps, g.dims.Total())
    ensures g.State() == M.Put(old(g.State()), h, cs.(ownSc := Overwrite(cs.ownSc, shot.frame, g.dims.Total())))
    ensures Genuine(shot, h, cs, old(g.gps), (g.tileX, g.tileY), w, st, px, render)
  {
    shot := RenderOnto(g, h, save, st, px, render, w, cs);
    g.OnlyClientState(h);
  }

  /** The camera is where the game already looks: the shared frame will do. */
  method ReuseShared(g: Globals, h: M.Conn)
    requires g.Valid() && h in g.clients
    modifies g.clients[h].ownSc
    ensures g.Valid() && g.Kept() && g.State() == WithFrame(old(g.State()), h, g.sc[..], g.dims.Total())
  {
    CopyTiles(g.clients[h].ownSc, g.sc, g.dims.Total());
    g.OnlyClientState(h);
  }

  ghost function WithDelta(s: M.Server, h: M.Conn, n: nat): M.Server
    requires h in s.clients && n <= CELLS
  {
    var c := s.clients[h];
    s.(clients := s.clients[h := c.(mod := Invalidate(c.mod, c.ownSc, c.ownPrev, n),
                                    ownPrev := Overwrite(c.ownPrev, c.ownSc, n))])
  }

  method DeltaOne(g: Globals, h: M.Conn)
    requires g.Valid() && h in g.clients
    modifies g.clients[h].mod, g.clients[h].ownPrev
    ensures g.Valid() && g.Kept() && g.State() == WithDelta(old(g.State()), h, g.dims.Total())
  {
    g.clients[h].Delta(g.dims.Total());
    g.OnlyClientState(h);
  }

  /** The whole pass for one client, given the frame of its extra render if it had one. */
  ghost function Passed(c: M.Client, save: Pos, sc: Buffer, frame: Buffer, d: Dims): M.Client {
    if c.hasOwnCam then M.PassClient(c, if c.cam == save then sc else frame, d) else c
  }

  ghost function FrameIn(shots: map<M.Conn, Shot>, h: M.Conn): Buffer {
    if h in shots then shots[h].frame else BlankBuffer()
  }

  /** The clients once those outside todo have had their pass. */
  ghost function PassedBut(m: map<M.Conn, M.Client>, todo: set<M.Conn>, save: Pos, sc: Buffer,
                           shots: map<M.Conn, Shot>, d: Dims): map<M.Conn, M.Client>
  {
    map h | h in m :: if h in todo then m[h] else Passed(m[h], save, sc, FrameIn(shots, h), d)
  }

  lemma PassedStep(s: M.Server, todo: set<M.Conn>, h: M.Conn, save: Pos, shots: map<M.Conn, Shot>,
                   shots': map<M.Conn, Shot>,
                   d: Dims)
    requires h in todo && h in s.clients && h !in shots
    requires forall k :: k in shots ==> k in shots' && shots'[k] == shots[k]
    requires forall k :: k in shots' ==> k == h || k in shots
    ensures var m := PassedBut(s.clients, todo, save, s.sc, shots, d);
      && h in m && m[h] == s.clients[h]
      && PassedBut(s.clients, todo - {h}, save, s.sc, shots', d)
         == m[h := Passed(m[h], save, s.sc, FrameIn(shots', h), d)]
  {
  }

  /** Whether a client needs a render of its own. */
  ghost predicate Elsewhere(c: M.Client, save: Pos) { c.hasOwnCam && c.cam != save }

  lemma PassedIs(s: M.Server, h: M.Conn, save: Pos, frame: Buffer, d: Dims)
    requires h in s.clients && s.clients[h].hasOwnCam
    requires s.clients[h].cam == save ==> frame == s.sc
    ensures WithDelta(WithFrame(s, h, frame, d.Total()), h, d.Total())
         == s.(clients := s.clients[h := Passed(s.clients[h], save, s.sc, frame, d)])
  {
  }

  /** One client of the per-client loop. */
  method PassOne(g: Globals, h: M.Conn, save: Pos, st: Setting, px: Grid, render: (M.Conn, Gps, Pos) -> Rendered)
    returns (ghost shot: Option<Shot>)
    requires g.Valid() && h in g.clients && st.dims == g.dims && g.dims.Valid()
    modifies g`window, g`gps, g.clients[h].mod, g.clients[h].ownSc, g.clients[h].ownPrev
    ensures g.Valid() && g.clients == old(g.clients) && g.Footprint() == old(g.Footprint())
    ensures g.dims == old(g.dims) && g.size == old(g.size) && Restored(old(g.gps), g.gps, g.dims.Total())
    ensures var s := old(g.State());
      && (shot.Some? <==> Elsewhere(s.clients[h], save))
      && g.State() == s.(clients := s.clients[h := Passed(s.clients[h], save, s.sc,
                         if shot.Some? then shot.value.frame else BlankBuffer(), g.dims)])
      && (shot.Some? ==> Genuine(shot.value, h, s.clients[h], old(g.gps), (g.tileX, g.tileY),
                                 old(g.World()).(window := save), st, px, render))
  {
    ghost var s := g.State();
    shot := None;
    var c := g.clients[h];
    assert s.clients[h] == c.State();
    if !c.hasOwnCam {
      assert s.clients[h := s.clients[h]] == s.clients;
      return;
    }
    if c.cam == save {
      PassedIs(s, h, save, s.sc, g.dims);
      ReuseShared(g, h);
    } else {
      ghost var taken := ExtraRender(g, h, save, st, px, render, g.World().(window := save), s.clients[h]);
      shot := Some(taken);
      PassedIs(s, h, save, taken.frame, g.dims);
    }
    DeltaOne(g, h);
  }

  lemma GenuineFrom(shot: Shot, h: M.Conn, c: M.Client, first: Gps, was: Gps, tile: (int, int), w: M.World,
                    st: Setting, px: Grid, render: (M.Conn, Gps, Pos) -> Rendered)
    requires w.dims.Fits() && Restored(first, was, w.dims.Total())
    requires Genuine(shot, h, c, was, tile, w, st, px, render)
    ensures Genuine(shot, h, c, first, tile, w, st, px, render)
  {
  }

  ghost function WithPasses(s: M.Server, todo: set<M.Conn>, save: Pos, shots: map<M.Conn, Shot>, d: Dims): M.Server {
    s.(clients := PassedBut(s.clients, todo, save, s.sc, shots, d))
  }

  /** Each shot belongs to a client that needed one, and was taken as it should be. */
  ghost predicate AllGenuine(shots: map<M.Conn, Shot>, s: M.Server, was: Gps, w: M.World, st: Setting, px: Grid,
                             render: (M.Conn, Gps, Pos) -> Rendered)
    requires w.dims.Fits()
  {
    forall h :: h in shots ==>
      && h in s.clients && Elsewhere(s.clients[h], w.window)
      && Genuine(shots[h], h, s.clients[h], was, (s.tileX, s.tileY), w, st, px, render)
  }

  lemma ShotAdded(shots: map<M.Conn, Shot>, h: M.Conn, shot: Shot, s: M.Server, was: Gps, now: Gps, w: M.World,
                  st: Setting, px: Grid, render: (M.Conn, Gps, Pos) -> Rendered)
    requires w.dims.Fits() && AllGenuine(shots, s, was, w, st, px, render) && Restored(was, now, w.dims.Total())
    requires h in s.clients && Elsewhere(s.clients[h], w.window)
    requires Genuine(shot, h, s.clients[h], now, (s.tileX, s.tileY), w, st, px, render)
    ensures AllGenuine(shots[h := shot], s, was, w, st, px, render)
  {
    GenuineFrom(shot, h, s.clients[h], was, now, (s.tileX, s.tileY), w, st, px, render);
  }

  ghost function Record(shots: map<M.Conn, Shot>, h: M.Conn, shot: Option<Shot>): map<M.Conn, Shot> {
    if shot.Some? then shots[h := shot.value] else shots
  }

  lemma WithPassesStep(s: M.Server, todo: set<M.Conn>, h: M.Conn, save: Pos, shots: map<M.Conn, Shot>,
                       shot: Option<Shot>, d: Dims)
    requires h in todo && h in s.clients && h !in shots
    ensures var s1 := WithPasses(s, todo, save, shots, d);
      && h in s1.clients && s1.clients[h] == s.clients[h] && s1.sc == s.sc && s1.tileX == s.tileX && s1.tileY == s.tileY
      && WithPasses(s, todo - {h}, save, Record(shots, h, shot), d)
         == s1.(clients := s1.clients[h := Passed(s1.clients[h], save, s.sc,
                                                  if shot.Some? then shot.value.frame else BlankBuffer(), d)])
  {
    PassedStep(s, todo, h, save, shots, Record(shots, h, shot), d);
  }

  /** Part-way through the passes: the clients of todo wait, the others have had theirs. */
  ghost predicate Midway(g: Globals, todo: set<M.Conn>, shots: map<M.Conn, Shot>, s: M.Server, w: M.World, was: Gps,
                         st: Setting, px: Grid, render: (M.Conn, Gps, Pos) -> Rendered)
    requires w.dims.Fits()
    reads g, g.Footprint()
  {
    && g.Valid() && g.dims == w.dims && g.size == w.size && Restored(was, g.gps, w.dims.Total())
    && was.mouse.x == w.mouseX && was.mouse.y == w.mouseY
    && g.State() == WithPasses(s, todo, w.window, shots, w.dims) && shots.Keys !! todo
    && AllGenuine(shots, s, was, w, st, px, render)
    && (forall h :: h in s.clients && Elsewhere(s.clients[h], w.window) ==> h in todo || h in shots)
  }

  lemma PassesStart(s: M.Server, save: Pos, d: Dims)
    ensures WithPasses(s, s.clients.Keys, save, map[], d) == s
  {
    assert PassedBut(s.clients, s.clients.Keys, save, s.sc, map[], d) == s.clients;
  }

  /** The loop over the clients, leaving the viewport wherever the last render left it. */
  method PassAll(g: Globals, st: Setting, px: Grid, render: (M.Conn, Gps, Pos) -> Rendered)
    returns (ghost shots: map<M.Conn, Shot>)
    requires g.Valid() && st.dims == g.dims && g.dims.Valid()
    modifies g.Footprint()
    ensures g.clients == old(g.clients) && g.Footprint() == old(g.Footprint())
    ensures Midway(g, {}, shots, old(g.State()), old(g.World()), old(g.gps), st, px, render)
  {
    ghost var s, w, was := g.State(), g.World(), g.gps;
    var save := g.window;
    shots := map[];
    var todo := g.clients.Keys;
    PassesStart(s, save, g.dims);
    while todo != {}
      invariant todo <= s.clients.Keys && todo <= g.clients.Keys && g.clients == old(g.clients)
        && g.Footprint() == old(g.Footprint())
      invariant Midway(g, todo, shots, s, w, was, st, px, render)
      decreases todo
    {
      var h :| h in todo;
      shots := PassOn(g, h, st, px, save, render, todo, shots, s, w, was);
      todo := todo - {h};
    }
  }

  method PassOn(g: Globals, h: M.Conn, st: Setting, px: Grid, save: Pos, render: (M.Conn, Gps, Pos) -> Rendered,
                ghost todo: set<M.Conn>, ghost shots: map<M.Conn, Shot>, ghost s: M.Server, ghost w: M.World,
                ghost was: Gps)
    returns (ghost shots': map<M.Conn, Shot>)
    requires w.dims.Valid() && Midway(g, todo, shots, s, w, was, st, px, render)
    requires st.dims == w.dims && w.window == save && h in todo && h in g.clients && h in s.clients
    modifies g.Footprint()
    ensures g.clients == old(g.clients) && g.Footprint() == old(g.Footprint())
    ensures Midway(g, todo - {h}, shots', s, w, was, st, px, render)
  {
    shots' := PassNext(g, h, st, px, save, render, todo, shots, s, w, was);
  }

  /** The loop's body, with the tick's starting point at hand. */
  method PassNext(g: Globals, h: M.Conn, st: Setting, px: Grid, save: Pos, render: (M.Conn, Gps, Pos) -> Rendered,
                  ghost todo: set<M.Conn>, ghost shots: map<M.Conn, Shot>, ghost s: M.Server, ghost w: M.World,
                  ghost was: Gps)
    returns (ghost shots': map<M.Conn, Shot>)
    requires g.Valid() && st.dims == g.dims && g.dims.Valid() && w.window == save && h in todo && h in s.clients
    requires h in g.clients && g.dims == w.dims && g.size == w.size && Restored(was, g.gps, g.dims.Total())
    requires was.mouse.x == w.mouseX && was.mouse.y == w.mouseY
    requires g.State() == WithPasses(s, todo, save, shots, g.dims) && shots.Keys !! todo
    requires AllGenuine(shots, s, was, w, st, px, render)
    modifies g.Footprint()
    ensures g.Valid() && g.clients == old(g.clients) && g.Footprint() == old(g.Footprint())
    ensures g.dims == w.dims && g.size == w.size && Restored(was, g.gps, g.dims.Total())
    ensures g.State() == WithPasses(s, todo - {h}, save, shots', g.dims) && shots'.Keys !! todo - {h}
    ensures AllGenuine(shots', s, was, w, st, px, render) && shots.Keys <= shots'.Keys
    ensures Elsewhere(s.clients[h], save) ==> h in shots'
  {
    ghost var now, d := g.gps, g.dims;
    assert g.World().(window := save) == w;
    WithPassesStep(s, todo, h, save, shots, None, d);
    ghost var shot := PassOne(g, h, save, st, px, render);
    shots' := Record(shots, h, shot);
    WithPassesStep(s, todo, h, save, shots, shot, d);
    if shot.Some? {
      ShotAdded(shots, h, shot.value, s, was, now, w, st, px, render);
    }
  }

  /** What the passes leave behind, seen from before them. Total is zero when there is no
      screen to draw. */
  ghost predicate Transparent(g: Globals, shots: map<M.Conn, Shot>, s: M.Server, w: M.World, was: Gps,
                              st: Setting, px: Grid, render: (M.Conn, Gps, Pos) -> Rendered)
    requires w.dims.Fits() && g.Valid()
    reads g, g.Footprint()
  {
    && g.World() == w && Restored(was, g.gps, w.dims.Total()) && AllGenuine(shots, s, was, w, st, px, render)
    && (g.State() == if w.dims.Valid() then WithPasses(s, {}, w.window, shots, w.dims) else s)
    && (w.dims.Valid() ==> forall h :: h in s.clients && Elsewhere(s.clients[h], w.window) ==> h in shots)
  }

  /** The per-client extra render passes. Whatever render does, the viewport, the screen,
      the overlay in use and the mouse are put back. */
  method ExtraPasses(g: Globals, st: Setting, px: Grid, render: (M.Conn, Gps, Pos) -> Rendered)
    returns (ghost shots: map<M.Conn, Shot>)
    requires g.Valid() && st.dims == g.dims && 0 <= g.dims.w <= 256 && 0 <= g.dims.h <= 256
    modifies g.Footprint()
    ensures g.Valid() && g.clients == old(g.clients) && g.Footprint() == old(g.Footprint())
    ensures Transparent(g, shots, old(g.State()), old(g.World()), old(g.gps), st, px, render)
  {
    var save, total := g.window, g.dims.w * g.dims.h;
    SomethingToDraw(g.dims);
    shots := map[];
    if total > 0 {
      shots := PassAll(g, st, px, render);
    }
    RestoreWindow(g, save);
  }

  lemma SomethingToDraw(d: Dims)
    requires 0 <= d.w <= 256 && 0 <= d.h <= 256
    ensures d.w * d.h > 0 <==> d.Valid()
  {
    MulMono(1, d.w, d.h);
    if d.w == 0 { assert d.w * d.h == 0; }
    if d.h == 0 { assert d.w * d.h == 0; }
  }

  method RestoreWindow(g: Globals, save: Pos)
    requires g.Valid()
    modifies g`window
    ensures g.Valid() && g.State() == old(g.State()) && g.clients == old(g.clients) && g.gps == old(g.gps)
    ensures g.World() == old(g.World()).(window := save) && g.Footprint() == old(g.Footprint())
  {
    g.window := save;
    g.QuietStates();
  }

  /** With a pass behind it, a client's reference frame is its frame. */
  lemma PassedIsLevel(s: M.Server, save: Pos, shots: map<M.Conn, Shot>, d: Dims, h: M.Conn)
    requires h in s.clients && s.clients[h].hasOwnCam
    ensures var c := WithPasses(s, {}, save, shots, d).clients[h];
      c.ownPrev[..d.Total()] == c.ownSc[..d.Total()]
  {
  }

  /** The game draws the same characters and colours after the passes as before them. */
  lemma SameGlyphs(was: Gps, now: Gps, n: nat, t: nat)
    requires n <= CELLS && t < n && Restored(was, now, n)
    ensures Frame.Shown(now, t) == Frame.Shown(was, t)
  {
    assert now.screen[t] == now.screen[..n][t] && was.screen[t] == was.screen[..n][t];
    if was.topInUse { assert now.top[t] == now.top[..n][t] && was.top[t] == was.top[..n][t]; }
  }

  // ----- the tick -----

  /** The state the extra passes start from. */
  ghost function Ready(s: M.Server, w: M.World, shared: Buffer): M.Server {
    Captured(MouseFlushed(Driven(s, w).(keys := [])), shared, w.dims)
  }

  lemma OverwriteNone(a: Buffer, b: Buffer)
    ensures Overwrite(a, b, 0) == a
  {
  }

  lemma TickIs(s: M.Server, w: M.World, shared: Buffer, save: Pos, shots: map<M.Conn, Shot>, f: M.Frames, s3: M.Server)
    requires s3 == Ready(s, w, shared)
    requires f.fed == save && f.shared == shared && forall h :: h in s.clients ==> f.extra(h) == FrameIn(shots, h)
    ensures (if w.dims.Valid() then WithPasses(s3, {}, save, shots, w.dims) else s3) == M.Tick(s, w, f)
  {
    TickFieldsAre(s, w, f, s3);
    TickClientsAre(s, w, f, shots, s3);
  }

  lemma TickClientsAre(s: M.Server, w: M.World, f: M.Frames, shots: map<M.Conn, Shot>, s3: M.Server)
    requires s3 == Ready(s, w, f.shared) && forall h :: h in s.clients ==> f.extra(h) == FrameIn(shots, h)
    ensures (if w.dims.Valid() then PassedBut(s3.clients, {}, f.fed, s3.sc, shots, w.dims) else s3.clients)
         == M.Tick(s, w, f).clients
  {
    var m, m' := if w.dims.Valid() then PassedBut(s3.clients, {}, f.fed, s3.sc, shots, w.dims) else s3.clients,
                 M.Tick(s, w, f).clients;
    TickFieldsAre(s, w, f, s3);
    assert m.Keys == m'.Keys;
    forall h | h in m' ensures m[h] == m'[h] {
      TickOneIs(s, w, f, h, s3);
    }
  }

  /** Everything but the clients is already as the tick leaves it. */
  lemma TickFieldsAre(s: M.Server, w: M.World, f: M.Frames, s3: M.Server)
    requires s3 == Ready(s, w, f.shared)
    ensures s3.clients.Keys == s.clients.Keys && s3 == M.Tick(s, w, f).(clients := s3.clients)
  {
    OverwriteNone(s.sc, f.shared);
    OverwriteNone(s.scPrev, s.sc);
  }

  lemma TickOneIs(s: M.Server, w: M.World, f: M.Frames, h: M.Conn, s3: M.Server)
    requires h in s.clients && s3 == Ready(s, w, f.shared)
    ensures h in s3.clients
    ensures M.TickClient(s, w, f, h, s.clients[h])
         == if w.dims.Valid() then Passed(s3.clients[h], f.fed, s3.sc, f.extra(h), w.dims) else s3.clients[h]
  {
  }

  /** What a tick saw: the shared frame and each extra pass's. */
  ghost function FramesOf(fed: Pos, shared: Buffer, shots: map<M.Conn, Shot>): M.Frames {
    M.Frames(fed, shared, h => FrameIn(shots, h))
  }

  /** plugin_onupdate: the state machine's tick, with the frames the game's screen composes
      to; out is what the game's own event queue gets. */
  method OnUpdate(g: Globals, fed: Pos, fedGps: Gps, st: Setting, px: Grid, render: (M.Conn, Gps, Pos) -> Rendered)
    returns (out: seq<SdlEvent>, ghost f: M.Frames, ghost shots: map<M.Conn, Shot>, ghost drawn: Gps)
    requires g.Valid() && st.dims == g.dims && 0 <= g.dims.w <= 256 && 0 <= g.dims.h <= 256
    modifies g.Footprint()
    ensures g.Valid() && g.clients == old(g.clients) && g.Footprint() == old(g.Footprint())
    ensures g.State() == M.Tick(old(g.State()), old(g.World()), f)
    ensures g.World() == M.TickWorld(old(g.State()), old(g.World()), f)
    ensures f == FramesOf(fed, FrameOf(drawn, st), shots) && drawn == fedGps.(mouse := g.gps.mouse)
    ensures Transparent(g, shots, Ready(old(g.State()), old(g.World()), FrameOf(drawn, st)), g.World(), drawn, st,
                        px, render)
    ensures Replay([], out) == Some([]) && Typed(out) == TypedBy(old(g.keys))
  {
    ghost var s, w := g.State(), g.World();
    DriveCamera(g);
    out := FlushKeys(g);
    FlushMouse(g, fed, fedGps, px);
    drawn := g.gps;
    CaptureScreenBuffer(g, st);
    ghost var s3 := g.State();
    shots := ExtraPasses(g, st, px, render);
    f := FramesOf(fed, FrameOf(drawn, st), shots);
    TickIs(s, w, FrameOf(drawn, st), fed, shots, f, s3);
  }
}
