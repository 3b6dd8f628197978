/** Runs that show what goes wrong where the results on synchronisation and cursors stop. */
module Witness {
  import Name
  import opened Bytes
  import opened Screen
  import opened Wire
  import opened Model
  import Cursor
  import opened Sync
  import opened SyncLaws
  import Names

  const ONE_TILE := Dims(1, 1)
  const STILL_WORLD := World(ORIGIN, ONE_TILE, None, -1, -1)
  const STILL_ENV := Env(0, 0, true, true, Ui(false, 0, false))
  const EMPTY_CANVAS := Browser(Dims(0, 0), map[])
  const SMALL_CONFIG := Config(600, 32, false, false)
  const ASK: seq<Byte> := [110]
  const TAKE: seq<Byte> := [116]
  const PAN: seq<Byte> := [117, 0, 0, 0]
  const PAN_EAST: seq<Byte> := [117, 1, 0, 0]

  function LitFrame(): Frames {
    AlwaysFrame(seq(CELLS, _ => BLANK.(ch := 1)), ORIGIN)
  }

  function Joins(h: Conn, nick: Nick): Event {
    Open(h, true, nick, false, EMPTY_CANVAS, STILL_ENV)
  }

  function Says(h: Conn, data: seq<Byte>): Event {
    Message(h, data, STILL_ENV)
  }

  lemma Meanings()
    ensures Classify(ASK) == MTock && Classify(TAKE) == MTurn && Classify(PAN) == MCam(ORIGIN)
    ensures Classify(PAN_EAST) == MCam(Pos(1, 0, 0))
  {
  }

  /** The states a run goes through. */
  ghost predicate Trace(st: seq<System>, evs: seq<Event>) {
    |st| == |evs| + 1 && forall i, j :: 0 <= i < |evs| && j == i + 1 ==> st[j] == Step(st[i], evs[i])
  }

  lemma {:induction false} RunTrace(s0: System, evs: seq<Event>) returns (st: seq<System>)
    ensures Trace(st, evs) && st[0] == s0 && st[|evs|] == Run(s0, evs)
    ensures evs != [] ==> st[|evs| - 1] == Run(s0, evs[..|evs| - 1])
    decreases |evs|
  {
    if evs == [] {
      st := [s0];
    } else {
      var n := |evs| - 1;
      var pre := RunTrace(s0, evs[..n]);
      var last := Step(pre[n], evs[n]);
      TraceSnoc(pre, evs[..n], evs[n], last);
      assert evs[..n] + [evs[n]] == evs;
      st := pre + [last];
    }
  }

  lemma TraceSnoc(st: seq<System>, evs: seq<Event>, ev: Event, last: System)
    requires Trace(st, evs) && last == Step(st[|evs|], ev)
    ensures Trace(st + [last], evs + [ev])
  {
  }

  // ----- single steps -----

  lemma JoinStep(s: System, s': System, h: Conn, nick: Nick)
    requires s' == Step(s, Joins(h, nick)) && Admits(s.server, true, nick)
    ensures s'.world == s.world && BrowserOf(s', h) == EMPTY_CANVAS
    ensures forall k :: k != h ==> BrowserOf(s', k) == BrowserOf(s, k)
    ensures s'.server == s.server.(clients := s.server.clients[h := NewClient(nick, false).(cam := s.world.window)])
  {
  }

  lemma SayStep(s: System, s': System, h: Conn, data: seq<Byte>, m: Msg)
    requires s' == Step(s, Says(h, data)) && Classify(data) == m && !m.MTock?
    ensures s'.server == OnMessage(s.server, s.world, h, m, STILL_ENV) && s'.world == s.world
      && s'.browsers == s.browsers
  {
  }

  lemma TakeStep(s: System, s': System, h: Conn, data: seq<Byte>)
    requires s' == Step(s, Says(h, data)) && Classify(data) == MTurn && s.server.active.None? && h in s.server.clients
    ensures s'.world == s.world && s'.browsers == s.browsers && s'.server.active == Some(h)
    ensures s'.server == s.server.(active := Some(h), clients :=
      s.server.clients[h := s.server.clients[h].(cursorActive := false, atime := 0, mod := AllDirty())])
  {
    SayStep(s, s', h, data, MTurn);
  }

  /** Where a move leads on a world without a map, short of the upper left bounds. */
  predicate Leads(p: Pos, d: Pos, q: Pos) {
    q.x == p.x + d.x >= 0 && q.y == p.y + d.y >= 0 && q.z == p.z + d.z >= 0
  }

  lemma ClampLeads(p: Pos, d: Pos, q: Pos, m: Option<MapSize>, dims: Dims)
    requires Leads(p, d, q) && m.None?
    ensures ClampCam(Shift(p, d), m, dims) == q
  {
  }

  lemma PanLeads(c: Client, w: World, d: Pos, q: Pos)
    requires Leads(w.window, d, q) && w.size.None? && !c.hasOwnCam
    ensures PanSpectator(c, w, d) == c.(cam := q, hasOwnCam := true, mod := AllDirty())
  {
    ClampLeads(w.window, d, q, w.size, w.dims);
  }

  lemma PanStep(s: System, s': System, h: Conn, data: seq<Byte>, d: Pos, q: Pos)
    requires s' == Step(s, Says(h, data)) && Classify(data) == MCam(d) && Leads(s.world.window, d, q)
    requires s.world.size.None? && s.server.active.None? && h in s.server.clients && !s.server.clients[h].hasOwnCam
    ensures s'.world == s.world && s'.browsers == s.browsers
    ensures s'.server == s.server.(clients :=
      s.server.clients[h := s.server.clients[h].(cam := q, hasOwnCam := true, mod := AllDirty())])
  {
    SayStep(s, s', h, data, Classify(data));
    PanMessage(s.server, s.world, h, Classify(data), STILL_ENV);
    PanMove(s.server, s.world, h, d, PanSpectator(s.server.clients[h], s.world, d));
    PanLeads(s.server.clients[h], s.world, d, q);
  }

  lemma PanMove(s: Server, w: World, h: Conn, d: Pos, c: Client)
    requires s.active.None? && h in s.clients && c == PanSpectator(s.clients[h], w, d)
    ensures CamMove(s, w, h, d) == s.(clients := s.clients[h := c])
  {
  }

  lemma PanMessage(s: Server, w: World, h: Conn, m: Msg, e: Env)
    requires m.MCam?
    ensures OnMessage(s, w, h, m, e) == CamMove(s, w, h, m.d)
  {
  }

  lemma IdleTock(s: Server, e: Env)
    requires s.active.None?
    ensures TockSeat(s, e) == s.(timedOut := TockSeat(s, e).timedOut)
  {
  }

  // ----- the early update -----

  predicate Stale(s: System) {
    && 0 in s.server.clients && s.server.cap == ONE_TILE && s.server.clients[0].mod[0] != 0
    && View(BrowserOf(s, 0), ONE_TILE, 0) != Some(Enc(s.server.clients[0].ownSc[0]))
  }

  function EarlyRun(): seq<Event> {
    var nick: Nick := [];
    [GameTick(LitFrame()), Joins(0, nick), Says(0, ASK), GameTick(LitFrame())]
  }

  /** A client on a lit screen still holding its blank start, and whether it was sent. */
  predicate Unlit(s: System, mod0: Byte) {
    && 0 in s.server.clients && s.server.cap == ONE_TILE && s.world == STILL_WORLD && s.server.active.None?
    && !s.server.clients[0].hasOwnCam && s.server.clients[0].mod[0] == mod0 && s.server.clients[0].ownSc[0] == BLANK
    && s.server.scPrev[0] == LitFrame().shared[0] && s.server.nobody.nick == NOBODY
  }

  lemma EarlyJoined(s1: System, s2: System, nick: Nick)
    requires s1 == Step(InitSystem(SMALL_CONFIG, STILL_WORLD), GameTick(LitFrame())) && s2 == Step(s1, Joins(0, nick))
    requires nick != NOBODY
    ensures Unlit(s2, 0)
  {
    JoinStep(s1, s2, 0, nick);
  }

  lemma EarlyShown(s2: System, s3: System, data: seq<Byte>)
    requires Unlit(s2, 0) && Classify(data).MTock? && s3 == Step(s2, Says(0, data))
    ensures View(BrowserOf(s3, 0), ONE_TILE, 0) == Some(Enc(BLANK))
  {
    TockOutcome(s2, 0, data, STILL_ENV);
    Names.NobodyDecodes();
    assert Delivered(s2, 0, 0) == Some(Enc(BLANK));
  }

  lemma EarlyAnswered(s2: System, s3: System, data: seq<Byte>)
    requires Unlit(s2, 0) && Classify(data).MTock? && s3 == Step(s2, Says(0, data))
    ensures Unlit(s3, 1)
  {
    IdleAnswer(s2, s3, 0, data, STILL_ENV);
  }

  lemma EarlyTicked(s3: System, s4: System)
    requires Unlit(s3, 1) && View(BrowserOf(s3, 0), ONE_TILE, 0) == Some(Enc(BLANK))
      && s4 == Step(s3, GameTick(LitFrame()))
    ensures Stale(s4)
  {
    TickEffect(s3.server, STILL_WORLD, LitFrame(), 0, 0);
  }

  lemma EarlyAlong(st: seq<System>, evs: seq<Event>, nick: Nick, data: seq<Byte>)
    requires |evs| == 4 && Trace(st, evs) && st[0] == InitSystem(SMALL_CONFIG, STILL_WORLD)
    requires nick != NOBODY && Classify(data).MTock?
    requires evs[0] == evs[3] == GameTick(LitFrame()) && evs[1] == Joins(0, nick) && evs[2] == Says(0, data)
    ensures Stale(st[4])
  {
    EarlyJoined(st[1], st[2], nick);
    EarlyShown(st[2], st[3], data);
    EarlyAnswered(st[2], st[3], data);
    EarlyTicked(st[3], st[4]);
  }

  /** Why the first proviso is needed: the update a browser asks for on connecting, answered
      before the first tick, marks a blank clean; the static screen never differs from its
      reference, so the tile stays blank in the browser while own_sc shows a character. */
  lemma EarlyUpdateGoesStale()
    ensures Stale(Run(InitSystem(SMALL_CONFIG, STILL_WORLD), EarlyRun()))
  {
    Meanings();
    var st := RunTrace(InitSystem(SMALL_CONFIG, STILL_WORLD), EarlyRun());
    EarlyAlong(st, EarlyRun(), [], ASK);
  }

  // ----- a name that does not decode -----

  /** A player called fifty times e-acute takes the seat, a tick draws the screen, and an
      update is answered. */
  function LongRun(): seq<Event> {
    Name.EncodeIsText(Name.Repeated(E_ACUTE, 50));
    [Joins(0, LongNick()), Says(0, TAKE), GameTick(LitFrame()), Says(0, ASK)]
  }

  /** The lone player holds the seat with nothing sent so far. */
  predicate Seated(s: System, nick: Nick) {
    && 0 in s.server.clients && s.world.dims == ONE_TILE && s.world.window == ORIGIN && s.server.active == Some(0)
    && s.server.clients[0].nick == nick && s.server.clients[0].mod[0] == 0
    && s.server.pending == ORIGIN && BrowserOf(s, 0) == EMPTY_CANVAS
  }

  /** The same once a tick has drawn the screen. */
  predicate Drawn(s: System, nick: Nick) {
    && Seated(s, nick) && s.server.cap == ONE_TILE && s.server.clients[0].hasOwnCam
    && s.server.clients[0].ownSc[0] == s.server.clients[0].ownPrev[0]
  }

  lemma SeatTaken(s0: System, s1: System, s2: System, nick: Nick, data: seq<Byte>)
    requires s0 == InitSystem(SMALL_CONFIG, STILL_WORLD) && nick != NOBODY && Classify(data) == MTurn
    requires s1 == Step(s0, Joins(0, nick)) && s2 == Step(s1, Says(0, data))
    ensures Seated(s2, nick)
  {
    JoinStep(s0, s1, 0, nick);
    TakeStep(s1, s2, 0, data);
  }

  lemma SeatDrawn(s2: System, s3: System, nick: Nick)
    requires Seated(s2, nick) && s3 == Step(s2, GameTick(LitFrame()))
    ensures Drawn(s3, nick)
  {
    TickEffect(s2.server, s2.world, LitFrame(), 0, 0);
    var sc := Overwrite(s2.server.sc, LitFrame().shared, 1);
    PassTile(Promote(s2.server, s2.world, 0, s2.server.clients[0]), sc, ONE_TILE, 0);
  }

  lemma DrawnIsSettled(s3: System, nick: Nick)
    requires Drawn(s3, nick)
    ensures Settled(s3, 0)
  {
  }

  /** A tile marked clean on a canvas that does not show it. */
  predicate Blank(s: System) {
    && 0 in s.server.clients && s.server.cap == ONE_TILE && s.server.clients[0].mod[0] != 0
    && View(BrowserOf(s, 0), ONE_TILE, 0).None?
  }

  lemma UnreadableUpdate(s3: System, s4: System, nick: Nick, data: seq<Byte>)
    requires Drawn(s3, nick) && !Decodes(nick) && Classify(data).MTock? && s4 == Step(s3, Says(0, data))
    ensures Blank(s4)
  {
    TockOutcome(s3, 0, data, STILL_ENV);
    assert Holder(s3.server).nick == nick && Delivered(s3, 0, 0).None?;
  }

  lemma BlankAlong(st: seq<System>, evs: seq<Event>, nick: Nick, take: seq<Byte>, ask: seq<Byte>)
    requires |evs| == 4 && Trace(st, evs) && st[0] == InitSystem(SMALL_CONFIG, STILL_WORLD)
    requires nick != NOBODY && !Decodes(nick) && Classify(take) == MTurn && Classify(ask).MTock?
    requires evs[0] == Joins(0, nick) && evs[1] == Says(0, take) && evs[2] == GameTick(LitFrame())
      && evs[3] == Says(0, ask)
    ensures Settled(st[3], 0) && Blank(st[4])
  {
    SeatTaken(st[0], st[1], st[2], nick, take);
    SeatDrawn(st[2], st[3], nick);
    DrawnIsSettled(st[3], nick);
    UnreadableUpdate(st[3], st[4], nick, ask);
  }

  /** Why the proviso on names is needed: settled as the client is, the update leaves its
      only tile marked clean and its canvas without it. */
  lemma LongNameLeavesBlank()
    ensures var s0 := InitSystem(SMALL_CONFIG, STILL_WORLD);
      Settled(Run(s0, LongRun()[..3]), 0) && Blank(Run(s0, LongRun()))
  {
    Name.EncodeIsText(Name.Repeated(E_ACUTE, 50));
    LongNickFails();
    Meanings();
    var st := RunTrace(InitSystem(SMALL_CONFIG, STILL_WORLD), LongRun());
    BlankAlong(st, LongRun(), LongNick(), TAKE, ASK);
  }

  // ----- a resize under an own camera -----

  const TALLER := Dims(1, 2)

  /** A spectator with a camera has been sent its one tile; the screen grows; the picture
      stays; an update is answered. */
  function GrowRun(): seq<Event> {
    var nick: Nick := [];
    [Joins(0, nick), Says(0, PAN), GameTick(LitFrame()), Says(0, ASK),
     Game(STILL_WORLD.(dims := TALLER)), GameTick(LitFrame()), Says(0, ASK)]
  }

  predicate HasCamera(s: System, mod0: Byte) {
    && 0 in s.server.clients && s.server.active.None? && s.server.nobody.nick == NOBODY
    && s.server.clients[0].hasOwnCam && s.server.clients[0].cam == ORIGIN && s.server.clients[0].mod[0] == mod0
  }

  predicate Sent(s: System) {
    HasCamera(s, 1) && s.server.clients[0].ownPrev[0] == LitFrame().shared[0] && BrowserOf(s, 0).dims == ONE_TILE
  }

  /** A tile marked clean after the growth, on no canvas of the new size. */
  predicate Lost(s: System) {
    && 0 in s.server.clients && s.server.cap == s.world.dims == TALLER && s.server.clients[0].mod[0] != 0
    && View(BrowserOf(s, 0), TALLER, 0).None?
  }

  lemma GrowPanned(s0: System, s1: System, s2: System, nick: Nick, data: seq<Byte>)
    requires s0 == InitSystem(SMALL_CONFIG, STILL_WORLD) && nick != NOBODY && Classify(data) == MCam(ORIGIN)
    requires s1 == Step(s0, Joins(0, nick)) && s2 == Step(s1, Says(0, data))
    ensures HasCamera(s2, 0) && s2.world == STILL_WORLD
  {
    JoinStep(s0, s1, 0, nick);
    PanStep(s1, s2, 0, data, ORIGIN, ORIGIN);
  }

  lemma GrowDrawn(s2: System, s3: System, mod0: Byte)
    requires HasCamera(s2, mod0) && s2.world.dims.Valid() && s3 == Step(s2, GameTick(LitFrame()))
    requires mod0 == 0 || s2.server.clients[0].ownPrev[0] == LitFrame().shared[0]
    ensures HasCamera(s3, mod0) && s3.server.cap == s2.world.dims && s3.world.dims == s2.world.dims
    ensures s3.server.clients[0].ownPrev[0] == LitFrame().shared[0] && BrowserOf(s3, 0) == BrowserOf(s2, 0)
  {
    AtInRange(s2.world.dims, 0, 0);
    TickEffect(s2.server, s2.world, LitFrame(), 0, 0);
    PassTile(s2.server.clients[0], Overwrite(s2.server.sc, LitFrame().shared, s2.world.dims.Total()), s2.world.dims, 0);
  }

  /** An update answered while the seat is empty only marks what it sent. */
  lemma IdleAnswer(s: System, s': System, h: Conn, data: seq<Byte>, e: Env)
    requires s.server.active.None? && h in s.server.clients && Classify(data).MTock?
    requires s' == Step(s, Message(h, data, e))
    ensures h in s'.server.clients && s'.world == s.world && s'.server.active.None? && s'.server.cap == s.server.cap
    ensures s'.server.nobody == s.server.nobody && s'.server.scPrev == s.server.scPrev
    ensures var c := s.server.clients[h];
      s'.server.clients[h] == c.(mod := MarkSent(c.mod, s.world.dims.Total()))
    ensures s.world.dims.Sendable() ==> BrowserOf(s', h).dims == s.world.dims
  {
    IdleTock(s.server, e);
    var c := TockSeat(s.server, e).clients[h];
    TockStep(s, h, h, e, data);
    HeaderIsValid(s.server, s.world, h, e);
    if s.world.dims.Sendable() {
      ReceiveDims(BrowserOf(s, h), TockHeader(s.server, s.world, h, e), Dirty(c, s.world.dims));
    }
  }

  lemma GrowAnswered(s3: System, s4: System, data: seq<Byte>, e: Env)
    requires HasCamera(s3, 0) && s3.server.cap == s3.world.dims == ONE_TILE && Classify(data).MTock?
    requires s4 == Step(s3, Message(0, data, e))
    ensures HasCamera(s4, 1) && s4.world == s3.world && s4.server.clients[0].ownPrev == s3.server.clients[0].ownPrev
    ensures BrowserOf(s4, 0).dims == ONE_TILE
  {
    IdleAnswer(s3, s4, 0, data, e);
  }

  lemma SentOne(s2: System, s3: System, s4: System, a: Event, b: Event, ask: seq<Byte>)
    requires HasCamera(s2, 0) && s2.world == STILL_WORLD && s3 == Step(s2, a) && s4 == Step(s3, b)
    requires a == GameTick(LitFrame()) && b == Says(0, ask) && Classify(ask).MTock?
    ensures Sent(s4)
  {
    GrowDrawn(s2, s3, 0);
    GrowAnswered(s3, s4, ask, STILL_ENV);
  }

  lemma GrowLost(s4: System, s5: System, s6: System, a: Event, b: Event, w: World)
    requires Sent(s4) && s5 == Step(s4, a) && s6 == Step(s5, b)
    requires a == Game(w) && w.dims == TALLER && b == GameTick(LitFrame())
    ensures Lost(s6)
  {
    GrowDrawn(s5, s6, 1);
  }

  /** An update never sends what is marked clean. */
  lemma CleanStaysBlank(s: System, s': System, h: Conn, data: seq<Byte>, e: Env, d: Dims)
    requires h in s.server.clients && Classify(data).MTock? && s' == Step(s, Message(h, data, e))
    requires s.world.dims == d && d.Sendable() && 0 < d.Total()
    requires s.server.clients[h].mod[0] != 0 && View(BrowserOf(s, h), d, 0).None?
    ensures h in s'.server.clients && s'.server.cap == s.server.cap && s'.world == s.world
    ensures s'.server.clients[h].mod[0] != 0 && View(BrowserOf(s', h), d, 0).None?
  {
    TockOutcome(s, h, data, e);
    assert Delivered(s, h, 0).None?;
  }

  lemma StaysLost(s6: System, s7: System, a: Event, ask: seq<Byte>, e: Env)
    requires Lost(s6) && s7 == Step(s6, a) && a == Message(0, ask, e) && Classify(ask).MTock?
    ensures Lost(s7)
  {
    CleanStaysBlank(s6, s7, 0, ask, e, TALLER);
  }

  lemma LostAlong(st: seq<System>, evs: seq<Event>, nick: Nick, pan: seq<Byte>, ask: seq<Byte>, w: World)
    requires |evs| == 7 && Trace(st, evs) && st[0] == InitSystem(SMALL_CONFIG, STILL_WORLD)
    requires nick != NOBODY && w.dims == TALLER && Classify(pan) == MCam(ORIGIN) && Classify(ask).MTock?
    requires evs[0] == Joins(0, nick) && evs[1] == Says(0, pan) && evs[2] == GameTick(LitFrame())
      && evs[3] == Says(0, ask)
    requires evs[4] == Game(w) && evs[5] == GameTick(LitFrame()) && evs[6] == Says(0, ask)
    ensures Lost(st[6]) && Lost(st[7])
  {
    GrowPanned(st[0], st[1], st[2], nick, pan);
    SentOne(st[2], st[3], st[4], evs[2], evs[3], ask);
    GrowLost(st[4], st[5], st[6], evs[4], evs[5], w);
    StaysLost(st[6], st[7], evs[6], ask, STILL_ENV);
  }

  /** Why the proviso on resizes is needed: after the growth and its tick the first tile is
      clean but on no canvas of the new size, and the next update does not send it either. */
  lemma ResizeGoesStale()
    ensures var s0 := InitSystem(SMALL_CONFIG, STILL_WORLD);
      Lost(Run(s0, GrowRun()[..6])) && Lost(Run(s0, GrowRun()))
  {
    Meanings();
    var st := RunTrace(InitSystem(SMALL_CONFIG, STILL_WORLD), GrowRun());
    LostAlong(st, GrowRun(), [], PAN, ASK, STILL_WORLD.(dims := TALLER));
  }

  // ----- an update between a resize and its tick -----

  /** The same growth, with the update asked for before the tick that follows it. */
  function LateRun(): seq<Event> {
    var nick: Nick := [];
    [Joins(0, nick), Says(0, PAN), GameTick(LitFrame()), Says(0, ASK),
     Game(STILL_WORLD.(dims := TALLER)), Says(0, ASK), GameTick(LitFrame())]
  }

  /** The taller canvas was cleared for an update that left the first tile out. */
  predicate LeftOut(s: System) {
    && HasCamera(s, 1) && s.world.dims == TALLER && s.server.clients[0].ownPrev[0] == LitFrame().shared[0]
    && View(BrowserOf(s, 0), TALLER, 0).None?
  }

  lemma LateGrown(s4: System, s5: System, a: Event, w: World)
    requires Sent(s4) && s5 == Step(s4, a) && a == Game(w) && w.dims == TALLER
    ensures LeftOut(s5)
  {
  }

  lemma LateAnswered(s5: System, s6: System, b: Event, ask: seq<Byte>, e: Env)
    requires LeftOut(s5) && s6 == Step(s5, b) && b == Message(0, ask, e) && Classify(ask).MTock?
    ensures LeftOut(s6)
  {
    IdleAnswer(s5, s6, 0, ask, e);
    CleanStaysBlank(s5, s6, 0, ask, e, TALLER);
  }

  lemma LateTicked(s6: System, s7: System, c: Event)
    requires LeftOut(s6) && s7 == Step(s6, c) && c == GameTick(LitFrame())
    ensures Lost(s7)
  {
    GrowDrawn(s6, s7, 1);
  }

  lemma LateAlong(st: seq<System>, evs: seq<Event>, nick: Nick, pan: seq<Byte>, ask: seq<Byte>, w: World)
    requires |evs| == 7 && Trace(st, evs) && st[0] == InitSystem(SMALL_CONFIG, STILL_WORLD)
    requires nick != NOBODY && w.dims == TALLER && Classify(pan) == MCam(ORIGIN) && Classify(ask).MTock?
    requires evs[0] == Joins(0, nick) && evs[1] == Says(0, pan) && evs[2] == GameTick(LitFrame())
      && evs[3] == Says(0, ask)
    requires evs[4] == Game(w) && evs[5] == Says(0, ask) && evs[6] == GameTick(LitFrame())
    ensures Lost(st[7])
  {
    GrowPanned(st[0], st[1], st[2], nick, pan);
    SentOne(st[2], st[3], st[4], evs[2], evs[3], ask);
    LateGrown(st[4], st[5], evs[4], w);
    LateAnswered(st[5], st[6], evs[5], ask, STILL_ENV);
    LateTicked(st[6], st[7], evs[6]);
  }

  /** A tile of an own-camera client is clean but on no canvas of the new size, after an
      update answered between the growth and its tick. */
  lemma LateUpdateGoesStale()
    ensures Lost(Run(InitSystem(SMALL_CONFIG, STILL_WORLD), LateRun()))
  {
    Meanings();
    var st := RunTrace(InitSystem(SMALL_CONFIG, STILL_WORLD), LateRun());
    LateAlong(st, LateRun(), [], PAN, ASK, STILL_WORLD.(dims := TALLER));
  }

  // ----- the driver's cursor before it is placed -----

  const EAST := Pos(1, 0, 0)

  /** The game's own mouse rests on the right one of two tiles. */
  const MOUSE_WORLD := STILL_WORLD.(dims := Dims(2, 1), mouseX := 1, mouseY := 0)

  /** A driver who has not moved their pointer is watched by a spectator one tile east. */
  function IdleMouseRun(): seq<Event> {
    var nick: Nick := [];
    [Joins(0, nick), Joins(1, nick), Says(0, PAN_EAST), Says(1, TAKE)]
  }

  predicate IdleMouse(s: System) {
    && 0 in s.server.clients && 1 in s.server.clients && s.server.active == Some(1) && s.server.clients[0].hasOwnCam
    && s.server.clients[0].cam == EAST && s.server.mice == [] && s.server.tileX == -1 && s.world == MOUSE_WORLD
  }

  lemma IdleMouseAlong(st: seq<System>, evs: seq<Event>, nick: Nick, pan: seq<Byte>, take: seq<Byte>)
    requires |evs| == 4 && Trace(st, evs) && st[0] == InitSystem(SMALL_CONFIG, MOUSE_WORLD) && nick != NOBODY
    requires Classify(pan) == MCam(EAST) && Classify(take) == MTurn
    requires evs[0] == Joins(0, nick) && evs[1] == Joins(1, nick) && evs[2] == Says(0, pan) && evs[3] == Says(1, take)
    ensures IdleMouse(st[4])
  {
    JoinStep(st[0], st[1], 0, nick);
    JoinStep(st[1], st[2], 1, nick);
    PanStep(st[2], st[3], 0, pan, EAST, EAST);
    TakeStep(st[3], st[4], 1, take);
  }

  /** The spectator is told of a cursor on its tile while the render pass stamps none. */
  predicate Disagrees(s: Server, w: World) {
    0 in s.clients && 1 in s.clients && Cursor.Sees(s, w, 0, 1) != Cursor.Stamped((s.tileX, s.tileY), w, s.clients[0])
  }

  lemma IdleMouseTicks(s: System, f: Frames)
    requires IdleMouse(s) && f.fed == s.world.window
    ensures s.server.clients[0].cam != f.fed
    ensures Disagrees(Tick(s.server, s.world, f), TickWorld(s.server, s.world, f))
  {
    Cursor.DriverCursorAgrees(s.server, s.world, f, 0, 1);
  }

  lemma IdleMouseDisagrees()
    ensures var s := Run(InitSystem(SMALL_CONFIG, MOUSE_WORLD), IdleMouseRun());
      IdleMouse(s) && s.server.clients[0].cam != LitFrame().fed
      && Disagrees(Tick(s.server, s.world, LitFrame()), TickWorld(s.server, s.world, LitFrame()))
  {
    Meanings();
    var st := RunTrace(InitSystem(SMALL_CONFIG, MOUSE_WORLD), IdleMouseRun());
    IdleMouseAlong(st, IdleMouseRun(), [], PAN_EAST, TAKE);
    IdleMouseTicks(st[4], LitFrame());
  }
}
