/** The server as a state machine on values: one function per handler of
    server/server.cpp and one for the game thread's tick in server/webfort.cpp. */
module Model {
  import opened Bytes
  import opened Screen
  import opened Input
  import opened Wire

  /** A websocket connection handle. */
  type Conn = nat

  predicate NulFree(s: seq<Byte>) { forall i :: 0 <= i < |s| ==> s[i] != 0 }

  type Nick = s: seq<Byte> | NulFree(s)

  /** "__NOBODY" */
  const NOBODY: Nick := [95, 95, 78, 79, 66, 79, 68, 89]

  datatype Config = Config(turnTime: int, maxClients: nat, ingameTime: bool, autosave: bool) {
    predicate Valid() { InInt32(turnTime) }
  }

  datatype MapSize = MapSize(sx: nat, sy: nat, sz: nat)

  datatype Ui = Ui(graphics: bool, atlas: nat, menu: bool)

  /** What one step observes of the outside: both clocks, pause state, menus. */
  datatype Env = Env(wall: int, round: int, paused: bool, safeToEscape: bool, ui: Ui)

  /** The game's own globals: viewport, screen size, map and gps->mouse. */
  datatype World = World(window: Pos, dims: Dims, size: Option<MapSize>, mouseX: int, mouseY: int)

  datatype Client = Client(nick: Nick, admin: bool, atime: int, mod: Mod, ownSc: Buffer, ownPrev: Buffer,
                           cursorX: int, cursorY: int, cursorActive: bool, cam: Pos, hasOwnCam: bool)

  datatype Server = Server(cfg: Config, clients: map<Conn, Client>, nobody: Client, active: Option<Conn>,
                           timedOut: bool, itime: int, keys: seq<KeyEvent>, mice: seq<MouseEvent>,
                           pending: Pos, tileX: int, tileY: int,
                           sc: Buffer, scPrev: Buffer, cap: Dims)

  const ORIGIN := Pos(0, 0, 0)

  /** The Client constructor. */
  function NewClient(nick: Nick, admin: bool): Client {
    Client(nick, admin, 0, AllDirty(), BlankBuffer(), BlankBuffer(), -1, -1, false, ORIGIN, false)
  }

  function InitServer(cfg: Config): Server {
    Server(cfg, map[], NewClient(NOBODY, false), None, true, 0, [], [], ORIGIN, -1, -1,
           BlankBuffer(), BlankBuffer(), Dims(-1, -1))
  }

  // ----- lookup -----

  /** get_client: unknown handles share the nobody client. */
  function Lookup(s: Server, h: Conn): Client {
    if h in s.clients then s.clients[h] else s.nobody
  }

  function Put(s: Server, h: Conn, c: Client): Server {
    if h in s.clients then s.(clients := s.clients[h := c]) else s.(nobody := c)
  }

  function Holder(s: Server): Client {
    if s.active.Some? then Lookup(s, s.active.value) else s.nobody
  }

  /** get_active_client is non-null. */
  predicate Drives(s: Server, h: Conn) {
    s.active == Some(h) && h in s.clients
  }

  // ----- seat and timers -----

  function HideCursor(s: Server, o: Option<Conn>): Server {
    if o.Some? && o.value in s.clients then
      s.(clients := s.clients[o.value := s.clients[o.value].(cursorActive := false)])
    else s
  }

  function TakeSeat(s: Server, h: Conn, round: int): Server {
    Put(s, h, Lookup(s, h).(atime := round, mod := AllDirty()))
  }

  function SetActive(s: Server, newc: Option<Conn>, e: Env): Server {
    if s.active == newc then s else
    var s1 := HideCursor(HideCursor(s, s.active).(active := newc), newc);
    var s2 := if newc.Some? then TakeSeat(s1, newc.value, e.round)
              else if s.cfg.autosave then s1.(itime := e.wall, timedOut := false)
              else s1;
    if e.paused then s2
    else s2.(keys := SimKey(SimKey(s2.keys, true, NO_MODS, K_SPACE, 32), false, NO_MODS, K_SPACE, 32))
  }

  /** `int played = now - atime` */
  function Played(s: Server, e: Env): int {
    Wrap32(e.round - Holder(s).atime)
  }

  predicate Timed(s: Server) {
    s.cfg.turnTime != 0 && s.active.Some? && |s.clients| > 1
  }

  predicate TimeUp(s: Server, e: Env) {
    Timed(s) && Played(s, e) >= s.cfg.turnTime
  }

  function TimeLeft(s: Server, e: Env): int {
    if Timed(s) && Played(s, e) < s.cfg.turnTime then Wrap32(s.cfg.turnTime - Played(s, e)) else -1
  }

  predicate SavesNow(s: Server, e: Env) {
    !s.timedOut && s.active.None? && e.wall - s.itime > 10
  }

  function IdleTimer(s: Server, e: Env): Server {
    if SavesNow(s, e) then s.(timedOut := true) else s
  }

  // ----- connection life cycle -----

  predicate Admits(s: Server, protocolOk: bool, nick: Nick) {
    protocolOk && |s.clients| < s.cfg.maxClients && nick != NOBODY
  }

  function OnOpen(s: Server, w: World, h: Conn, protocolOk: bool, nick: Nick, admin: bool, e: Env): Server {
    if Admits(s, protocolOk, nick) then
      s.(clients := s.clients[h := NewClient(nick, admin).(atime := e.round, cam := w.window)])
    else s
  }

  function OnClose(s: Server, h: Conn, e: Env): Server {
    var s1 := if h in s.clients && s.active == Some(h) then SetActive(s, None, e) else s;
    s1.(clients := s1.clients - {h})
  }

  // ----- cameras -----

  function Raise(v: int, lo: int): int { if v < lo then lo else v }

  function Lower(v: int, hi: int): int { if v > hi then hi else v }

  /** The bound checks, lower bound first, upper bounds only with a map. */
  function ClampCam(p: Pos, m: Option<MapSize>, d: Dims): Pos {
    var q := Pos(Raise(p.x, -30), Raise(p.y, -30), Raise(p.z, 0));
    if m.None? then q else
    Pos(Lower(q.x, m.value.sx * 16 - d.w + 30), Lower(q.y, m.value.sy * 16 - d.h + 30),
        if m.value.sz > 0 then Lower(q.z, m.value.sz - 1) else q.z)
  }

  function Shift(p: Pos, d: Pos): Pos { Pos(p.x + d.x, p.y + d.y, p.z + d.z) }

  /** fetch_add on the three atomics. */
  function Accumulate(p: Pos, d: Pos): Pos {
    Pos(Wrap32(p.x + d.x), Wrap32(p.y + d.y), Wrap32(p.z + d.z))
  }

  function PanSpectator(c: Client, w: World, d: Pos): Client {
    var from := if c.hasOwnCam then c.cam else w.window;
    c.(cam := ClampCam(Shift(from, d), w.size, w.dims), hasOwnCam := true, mod := AllDirty())
  }

  // ----- messages -----

  datatype Msg = MKey(code: Byte, ch: Byte, js: Byte)
               | MMouse(ev: MouseEvent)
               | MCursor(tx: Byte, ty: Byte)
               | MRefresh
               | MCam(d: Pos)
               | MTurn
               | MTock

  function KindOf(b: Byte): MouseKind {
    match b case 0 => Move case 1 => Down case 2 => Up case 3 => Wheel case _ => Other
  }

  /** on_message's dispatch: wrong sizes fall through to the update request. */
  function Classify(data: seq<Byte>): Msg {
    var n := |data|;
    var op: int := if n == 0 then 0 else data[0];
    if op == 111 && n == 4 then MKey(data[1], data[2], data[3])
    else if op == 113 && n == 5 then MMouse(MouseEvent(data[1], data[2], data[3], KindOf(data[4])))
    else if op == 114 && n == 3 then MCursor(data[1], data[2])
    else if op == 115 then MRefresh
    else if op == 117 && n == 4 then MCam(Pos(Int8(data[1]), Int8(data[2]), Int8(data[3])))
    else if op == 116 then MTurn
    else MTock
  }

  predicate AcceptsKey(s: Server, h: Conn, m: Msg, e: Env)
    requires m.MKey?
  {
    var k := MessageKey(m.code, m.ch);
    s.active == Some(h) && k != K_UNKNOWN && (Lookup(s, h).admin || k != K_ESCAPE || e.safeToEscape)
  }

  function Base(c: Client, w: World): Pos { if c.hasOwnCam then c.cam else w.window }

  function OnMessage(s: Server, w: World, h: Conn, m: Msg, e: Env): Server {
    match m
    case MKey(code, ch, js) => KeyMessage(s, h, code, ch, js, e)
    case MMouse(ev) => MouseMessage(s, h, ev)
    case MCursor(tx, ty) => CursorMove(s, w, h, tx, ty)
    case MRefresh => Refresh(s, h)
    case MCam(d) => CamMove(s, w, h, d)
    case MTurn => RequestTurn(s, h, e)
    case MTock => Tock(s, w, h, e)
  }

  function KeyMessage(s: Server, h: Conn, code: Byte, ch: Byte, js: Byte, e: Env): Server {
    if AcceptsKey(s, h, MKey(code, ch, js), e) then s.(keys := KeyCalls(s.keys, MessageKey(code, ch), ch, js)) else s
  }

  function MouseMessage(s: Server, h: Conn, ev: MouseEvent): Server {
    if s.active == Some(h) then s.(mice := s.mice + [ev]) else s
  }

  function CursorMove(s: Server, w: World, h: Conn, tx: Byte, ty: Byte): Server {
    if s.active == Some(h) || h !in s.clients then s else
    var c := s.clients[h];
    Put(s, h, c.(cursorX := Base(c, w).x + tx, cursorY := Base(c, w).y + ty, cursorActive := true))
  }

  function Refresh(s: Server, h: Conn): Server {
    Put(s, h, Lookup(s, h).(mod := AllDirty()))
  }

  function CamMove(s: Server, w: World, h: Conn, d: Pos): Server {
    if h !in s.clients then s
    else if s.active == Some(h) then s.(pending := Accumulate(s.pending, d))
    else Put(s, h, PanSpectator(s.clients[h], w, d))
  }

  function RequestTurn(s: Server, h: Conn, e: Env): Server {
    if s.active == Some(h) then SetActive(s, None, e)
    else if s.active.None? then SetActive(s, Some(h), e)
    else s
  }

  // ----- tock -----

  /** The seat half of tock: idle save, then the turn timer. */
  function TockSeat(s: Server, e: Env): Server {
    var s1 := IdleTimer(s, e);
    if TimeUp(s1, e) then SetActive(s1, None, e) else s1
  }

  function Tock(s: Server, w: World, h: Conn, e: Env): Server {
    var s1 := TockSeat(s, e);
    var c := Lookup(s1, h);
    Put(s1, h, c.(mod := MarkSent(c.mod, w.dims.Total())))
  }

  function TockHeader(s: Server, w: World, h: Conn, e: Env): Header {
    var s1 := TockSeat(s, e);
    Header(|s1.clients|, s1.active == Some(h), s1.active.None?, s.cfg.ingameTime, e.ui.graphics, e.ui.atlas % 16,
           e.ui.menu, TimeLeft(IdleTimer(s, e), e), w.dims, Base(Lookup(s1, h), w), Holder(s).nick)
  }

  /** The dirty tiles of the first y rows and the first x tiles of row y, as visited. */
  function DirtyBefore(c: Client, d: Dims, x: int, y: int): seq<Rec>
    requires d.Valid() && 0 <= x <= d.w && 0 <= y <= d.h && (y == d.h ==> x == 0)
    decreases y, x
  {
    if x > 0 then
      DirtyBefore(c, d, x - 1, y) + RecAt(c, d, x - 1, y)
    else if y > 0 then
      DirtyBefore(c, d, d.w, y - 1)
    else []
  }

  function RecAt(c: Client, d: Dims, x: int, y: int): seq<Rec>
    requires d.Valid() && d.Has(x, y)
  {
    AtInRange(d, x, y);
    var t := At(d, x, y);
    if c.mod[t] == 0 then [Rec(x, y, c.ownSc[t])] else []
  }

  function Dirty(c: Client, d: Dims): seq<Rec> {
    if d.Valid() then DirtyBefore(c, d, 0, d.h) else []
  }

  /** The bytes tock sends to h. */
  function TockPacket(s: Server, w: World, h: Conn, e: Env): seq<Byte> {
    EncodeUpdate(TockHeader(s, w, h, e), Dirty(Lookup(TockSeat(s, e), h), w.dims))
  }

  // ----- the game thread's tick -----

  /** One tick's outside inputs: where feeding input left the viewport, the composed
      shared frame, and the frame each extra render pass produced. */
  datatype Frames = Frames(fed: Pos, shared: Buffer, extra: Conn -> Buffer)

  function DrainedWindow(s: Server, w: World): Pos {
    if s.pending == ORIGIN then w.window else ClampCam(Shift(w.window, s.pending), w.size, w.dims)
  }

  /** Sync of the driver's camera from the viewport; a drained move dirties everything. */
  function Promote(s: Server, w: World, h: Conn, c: Client): Client {
    if Drives(s, h) then
      c.(mod := if s.pending == ORIGIN then c.mod else AllDirty(), cam := DrainedWindow(s, w), hasOwnCam := true)
    else c
  }

  /** capture_screen_buffer for one client that shares the global viewport. */
  function CaptureClient(c: Client, sc: Buffer, scPrev: Buffer, d: Dims, cap: Dims): Client {
    c.(ownSc := Overwrite(c.ownSc, sc, d.Total()),
       mod := if d != cap then AllDirty() else Invalidate(c.mod, sc, scPrev, d.Total()))
  }

  /** The per-client pass for one client with its own camera. */
  function PassClient(c: Client, frame: Buffer, d: Dims): Client {
    var own := Overwrite(c.ownSc, frame, d.Total());
    c.(ownSc := own, mod := Invalidate(c.mod, own, c.ownPrev, d.Total()),
       ownPrev := Overwrite(c.ownPrev, own, d.Total()))
  }

  function TickClient(s: Server, w: World, f: Frames, h: Conn, c: Client): Client {
    var c1 := Promote(s, w, h, c);
    var sc := Overwrite(s.sc, f.shared, w.dims.Total());
    if w.dims.Total() == 0 then c1
    else if c1.hasOwnCam then PassClient(c1, if c1.cam == f.fed then sc else f.extra(h), w.dims)
    else CaptureClient(c1, sc, s.scPrev, w.dims, s.cap)
  }

  predicate Moves(ev: MouseEvent) { ev.kind.Move? || ev.kind.Down? }

  /** The last move or press is where the virtual cursor rests. */
  function FlushMice(mice: seq<MouseEvent>, x: int, y: int): (int, int) {
    if mice == [] then (x, y) else
    var ev := mice[0];
    if Moves(ev) then FlushMice(mice[1..], ev.x, ev.y) else FlushMice(mice[1..], x, y)
  }

  /** gps->mouse follows every event, then the virtual cursor is stamped again. */
  function StampedMouse(s: Server, w: World): (int, int) {
    var tile := FlushMice(s.mice, s.tileX, s.tileY);
    if tile.0 >= 0 then tile
    else if s.mice != [] then (s.mice[|s.mice| - 1].x, s.mice[|s.mice| - 1].y)
    else (w.mouseX, w.mouseY)
  }

  function Tick(s: Server, w: World, f: Frames): Server {
    var n := w.dims.Total();
    var sc := Overwrite(s.sc, f.shared, n);
    var tile := FlushMice(s.mice, s.tileX, s.tileY);
    s.(clients := map h | h in s.clients :: TickClient(s, w, f, h, s.clients[h]),
       keys := [], mice := [], pending := ORIGIN, tileX := tile.0, tileY := tile.1,
       sc := sc, scPrev := Overwrite(s.scPrev, sc, n),
       cap := if n == 0 then s.cap else w.dims)
  }

  function TickWorld(s: Server, w: World, f: Frames): World {
    var m := StampedMouse(s, w);
    w.(window := f.fed, mouseX := m.0, mouseY := m.1)
  }

  // ----- the whole system -----

  /** A browser's canvas: its size and the last record decoded for each tile. */
  datatype Browser = Browser(dims: Dims, cells: map<(int, int), Cell>)

  datatype System = System(server: Server, world: World, browsers: map<Conn, Browser>)

  /** The canvas is cleared when its size must change, then each record is painted. */
  function Receive(b: Browser, data: seq<Byte>): Browser {
    if !Readable(data) then b else
    var u := DecodeUpdate(data);
    var b1 := if u.dims.w > 0 && u.dims.h > 0 && u.dims != b.dims then Browser(u.dims, map[]) else b;
    b1.(cells := Paint(b1.cells, u.patches))
  }

  function Paint(cells: map<(int, int), Cell>, ps: seq<Patch>): map<(int, int), Cell> {
    if ps == [] then cells else
    var p := ps[|ps| - 1];
    Paint(cells, ps[..|ps| - 1])[(p.x, p.y) := p.cell]
  }

  datatype Event = Open(h: Conn, protocolOk: bool, nick: Nick, admin: bool, browser: Browser, e: Env)
                 | Close(h: Conn, e: Env)
                 | Message(h: Conn, data: seq<Byte>, e: Env)
                 | GameTick(f: Frames)
                 | Game(w: World)   // the game's own loop: scrolling, resizing, loading

  function BrowserOf(s: System, h: Conn): Browser {
    if h in s.browsers then s.browsers[h] else Browser(Dims(0, 0), map[])
  }

  function Step(s: System, ev: Event): System {
    match ev
    case Open(h, ok, nick, admin, b, e) =>
      s.(server := OnOpen(s.server, s.world, h, ok, nick, admin, e), browsers := s.browsers[h := b])
    case Close(h, e) =>
      s.(server := OnClose(s.server, h, e))
    case Message(h, data, e) =>
      var m := Classify(data);
      var s1 := s.(server := OnMessage(s.server, s.world, h, m, e));
      if m.MTock? then
        s1.(browsers := s.browsers[h := Receive(BrowserOf(s, h), TockPacket(s.server, s.world, h, e))])
      else s1
    case GameTick(f) =>
      s.(server := Tick(s.server, s.world, f), world := TickWorld(s.server, s.world, f))
    case Game(w) =>
      s.(world := w)
  }

  function Run(s: System, evs: seq<Event>): System {
    if evs == [] then s else Step(Run(s, evs[..|evs| - 1]), evs[|evs| - 1])
  }

  function InitSystem(cfg: Config, w: World): System {
    System(InitServer(cfg), w, map[])
  }
}
