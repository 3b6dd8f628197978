/** Incremental frame sync: dirty bytes against what each browser shows, over every
    interleaving of connections, messages, ticks and the game's own changes. */
module Sync {
  import opened Bytes
  import opened Screen
  import opened Wire
  import opened Model

  // ----- what is claimed -----

  function Place(d: Dims, t: int): (int, int)
    requires d.h > 0
  {
    (t / d.h, t % d.h)
  }

  /** The cell a browser shows for tile t, if its canvas has the right size. */
  function View(b: Browser, d: Dims, t: int): Option<Cell>
    requires d.h > 0
  {
    if b.dims == d then CellAt(b.cells, Place(d, t)) else None
  }

  function CellAt(cells: map<(int, int), Cell>, p: (int, int)): Option<Cell> {
    if p in cells then Some(cells[p]) else None
  }

  /** Every tile marked clean is on screen exactly as its own_sc encodes it. */
  ghost predicate Exact(c: Client, b: Browser, d: Dims) {
    forall t :: 0 <= t < d.Total() && c.mod[t] != 0 ==> View(b, d, t) == Some(Enc(c.ownSc[t]))
  }

  /** The next delta of this client compares against every reference it may still use:
      own_sc_prev once it has a camera or drives, sc_prev until it has a camera. */
  predicate Anchored(c: Client, drives: bool, scPrev: Buffer, t: int)
    requires 0 <= t < CELLS
  {
    && (c.hasOwnCam || drives ==> Enc(c.ownPrev[t]) == Enc(c.ownSc[t]))
    && (!c.hasOwnCam ==> Enc(scPrev[t]) == Enc(c.ownSc[t]))
  }

  ghost predicate CleanAnchored(c: Client, drives: bool, scPrev: Buffer, d: Dims) {
    forall t :: 0 <= t < d.Total() && c.mod[t] != 0 ==> Anchored(c, drives, scPrev, t)
  }

  ghost predicate AllAnchored(c: Client, drives: bool, scPrev: Buffer, d: Dims) {
    forall t :: 0 <= t < d.Total() ==> Anchored(c, drives, scPrev, t)
  }

  ghost predicate ClientCoherent(c: Client, b: Browser, drives: bool, scPrev: Buffer, d: Dims) {
    Exact(c, b, d) && CleanAnchored(c, drives, scPrev, d)
  }

  /** The inductive invariant, for one connected client. */
  ghost predicate Coherent(s: System, h: Conn) {
    h in s.server.clients ==>
      ClientCoherent(s.server.clients[h], BrowserOf(s, h), s.server.active == Some(h), s.server.scPrev, s.server.cap)
  }

  /** A client whose buffers agree with their references at the present screen size. */
  ghost predicate Settled(s: System, h: Conn) {
    && h in s.server.clients && s.world.dims == s.server.cap && s.server.cap.Sendable()
    && AllAnchored(s.server.clients[h], s.server.active == Some(h), s.server.scPrev, s.server.cap)
  }

  /** The tiles marked clean for c that a delta against own_sc_prev would keep are on screen. */
  ghost predicate CleanShowsPrev(c: Client, b: Browser, d: Dims) {
    forall t :: 0 <= t < d.Total() && c.mod[t] != 0 ==> View(b, d, t) == Some(Enc(c.ownPrev[t]))
  }

  /** The tiles due for c are on screen already. */
  ghost predicate DirtyShown(c: Client, b: Browser, d: Dims) {
    forall t :: 0 <= t < d.Total() && c.mod[t] == 0 ==> View(b, d, t) == Some(Enc(c.ownSc[t]))
  }

  /** The next update gets past the holder's name in h's browser, or has nothing new. */
  ghost predicate Reaches(s: System, h: Conn)
    requires h in s.server.clients
  {
    Decodes(Holder(s.server).nick) || DirtyShown(s.server.clients[h], BrowserOf(s, h), s.world.dims)
  }

  /** The three provisos: this client's own updates are answered while it is settled and
      while the holder's name decodes, and a resize reaches it while it shares the viewport
      or its canvas already shows what is clean. */
  ghost predicate LegalFor(s: System, ev: Event, h: Conn) {
    match ev
    case Open(k, _, _, _, _, _) => k == h ==> h !in s.server.clients
    case Message(k, data, _) => k == h && Classify(data).MTock? ==> Settled(s, h) && Reaches(s, h)
    case GameTick(_) => h in s.server.clients ==> TickLegal(s, h)
    case _ => true
  }

  ghost predicate TickLegal(s: System, h: Conn)
    requires h in s.server.clients
  {
    var c := Promote(s.server, s.world, h, s.server.clients[h]);
    s.world.dims.Valid() && s.world.dims != s.server.cap && c.hasOwnCam ==>
      CleanShowsPrev(c, BrowserOf(s, h), s.world.dims)
  }

  // ----- painting a packet -----

  /** What one visited tile does to the canvas cell p. */
  lemma PaintRecAt(cells: map<(int, int), Cell>, rs: seq<Rec>, c: Client, d: Dims, x: int, y: int, p: (int, int))
    requires d.Valid() && d.Has(x, y) && 0 <= At(d, x, y) < CELLS
    ensures CellAt(Paint(cells, Patches(rs + RecAt(c, d, x, y))), p)
         == if p == (x, y) && c.mod[At(d, x, y)] == 0 then Some(Enc(c.ownSc[At(d, x, y)]))
            else CellAt(Paint(cells, Patches(rs)), p)
  {
    var r := RecAt(c, d, x, y);
    if r == [] {
      assert rs + r == rs;
    } else {
      assert Patches(rs + r)[..|rs|] == Patches(rs);
      assert Patches(rs + r)[|rs|] == Patch(x, y, Enc(c.ownSc[At(d, x, y)]));
    }
  }

  /** Painting the records visited so far puts exactly the dirty tiles on the canvas. */
  lemma {:induction false} PaintVisited(cells: map<(int, int), Cell>, c: Client, d: Dims, x: int, y: int,
                                        px: int, py: int, t: int)
    requires d.Valid() && 0 <= x <= d.w && 0 <= y <= d.h && (y == d.h ==> x == 0)
    requires d.Has(px, py) && t == At(d, px, py) && 0 <= t < CELLS
    ensures CellAt(Paint(cells, Patches(DirtyBefore(c, d, x, y))), (px, py))
         == if Before(px, py, x, y) && c.mod[t] == 0 then Some(Enc(c.ownSc[t])) else CellAt(cells, (px, py))
    decreases y, x
  {
    if x > 0 {
      PaintVisited(cells, c, d, x - 1, y, px, py, t);
      AtInRange(d, x - 1, y);
      PaintRecAt(cells, DirtyBefore(c, d, x - 1, y), c, d, x - 1, y, (px, py));
    } else if y > 0 {
      PaintVisited(cells, c, d, d.w, y - 1, px, py, t);
    }
  }

  /** Receiving an update repaints the dirty tiles if the name in it decodes, and keeps the
      rest, unless the canvas had to be resized first. */
  lemma ReceiveView(b: Browser, hd: Header, c: Client, d: Dims, t: int)
    requires hd.Valid() && hd.dims == d && d.Sendable() && 0 <= t < d.Total()
    ensures View(Receive(b, EncodeUpdate(hd, Dirty(c, d))), d, t)
         == if c.mod[t] == 0 && Decodes(hd.nick) then Some(Enc(c.ownSc[t])) else View(b, d, t)
  {
    var rs := Dirty(c, d);
    UpdateRoundTrip(hd, rs);
    AtSurjective(d, t);
    var b1 := if d != b.dims then Browser(d, map[]) else b;
    PaintVisited(b1.cells, c, d, 0, d.h, t / d.h, t % d.h, t);
    assert Receive(b, EncodeUpdate(hd, rs))
        == b1.(cells := Paint(b1.cells, if Decodes(hd.nick) then Patches(rs) else []));
  }

  /** After any update the canvas has the size it names. */
  lemma ReceiveDims(b: Browser, hd: Header, rs: seq<Rec>)
    requires hd.Valid() && hd.dims.Sendable()
    ensures Receive(b, EncodeUpdate(hd, rs)).dims == hd.dims
  {
    UpdateRoundTrip(hd, rs);
  }

  // ----- what each handler does to one client's frame -----

  predicate SameFrame(c: Client, c': Client) {
    c'.mod == c.mod && c'.ownSc == c.ownSc && c'.ownPrev == c.ownPrev && c'.hasOwnCam == c.hasOwnCam
  }

  /** The handlers leave the shared frame alone and never connect anyone. */
  predicate SameScene(s: Server, s': Server) {
    s'.scPrev == s.scPrev && s'.cap == s.cap && s'.clients.Keys <= s.clients.Keys
  }

  lemma VacateFrame(s: Server, e: Env, h: Conn)
    requires h in s.clients
    ensures var s' := SetActive(s, None, e);
      SameScene(s, s') && s'.active.None? && h in s'.clients && SameFrame(s.clients[h], s'.clients[h])
  {
  }

  lemma TakeFrame(s: Server, k: Conn, e: Env, h: Conn)
    requires h in s.clients && s.active.None?
    ensures var s' := SetActive(s, Some(k), e);
      && SameScene(s, s') && s'.active == Some(k) && h in s'.clients
      && s'.clients[h].hasOwnCam == s.clients[h].hasOwnCam
      && (if h == k then s'.clients[h].mod == AllDirty() else SameFrame(s.clients[h], s'.clients[h]))
      && s'.clients[h].ownSc == s.clients[h].ownSc && s'.clients[h].ownPrev == s.clients[h].ownPrev
  {
  }

  lemma TockSeatFrame(s: Server, e: Env, h: Conn)
    requires h in s.clients
    ensures var s' := TockSeat(s, e);
      && SameScene(s, s') && h in s'.clients && SameFrame(s.clients[h], s'.clients[h])
      && (s'.active == s.active || s'.active.None?)
  {
    VacateFrame(IdleTimer(s, e), e, h);
  }

  /** From a canvas exact on clean tiles, one update leaves nothing to send, and the whole
      own_sc on the canvas, the same picture as sending the full frame, if and only if the
      name in it decodes or what was due was there already. */
  lemma TockShowsAll(b: Browser, hd: Header, c: Client, d: Dims)
    requires hd.Valid() && hd.dims == d && d.Sendable() && Exact(c, b, d)
    ensures (forall t :: 0 <= t < d.Total() ==>
              View(Receive(b, EncodeUpdate(hd, Dirty(c, d))), d, t) == Some(Enc(c.ownSc[t])))
            <==> Decodes(hd.nick) || DirtyShown(c, b, d)
    ensures forall t :: 0 <= t < d.Total() ==> MarkSent(c.mod, d.Total())[t] != 0
  {
    forall t | 0 <= t < d.Total()
      ensures View(Receive(b, EncodeUpdate(hd, Dirty(c, d))), d, t)
           == if c.mod[t] == 0 && Decodes(hd.nick) then Some(Enc(c.ownSc[t])) else View(b, d, t)
    {
      ReceiveView(b, hd, c, d, t);
    }
  }

  lemma HeaderIsValid(s: Server, w: World, h: Conn, e: Env)
    ensures TockHeader(s, w, h, e).Valid() && TockHeader(s, w, h, e).dims == w.dims
    ensures TockHeader(s, w, h, e).nick == Holder(s).nick
  {
    Wrap32Id(s.cfg.turnTime - Played(s, e));
  }

  /** The client half of a settled tock. */
  lemma TockClientKeeps(b: Browser, hd: Header, c: Client, drives: bool, scPrev: Buffer, d: Dims)
    requires hd.Valid() && hd.dims == d && d.Sendable()
    requires Exact(c, b, d) && AllAnchored(c, drives, scPrev, d) && (Decodes(hd.nick) || DirtyShown(c, b, d))
    ensures ClientCoherent(c.(mod := MarkSent(c.mod, d.Total())), Receive(b, EncodeUpdate(hd, Dirty(c, d))),
                           drives, scPrev, d)
  {
    TockShowsAll(b, hd, c, d);
    var c' := c.(mod := MarkSent(c.mod, d.Total()));
    forall t | 0 <= t < d.Total()
      ensures Anchored(c', drives, scPrev, t)
    {
      assert Anchored(c, drives, scPrev, t);
    }
  }

  lemma WeakenAnchor(c: Client, c': Client, drives: bool, drives': bool, scPrev: Buffer, t: int)
    requires SameFrame(c, c') && (drives' ==> drives) && 0 <= t < CELLS && Anchored(c, drives, scPrev, t)
    ensures Anchored(c', drives', scPrev, t)
  {
  }

  /** Losing the seat or changing anything but the frame weakens the obligations. */
  lemma Weaken(c: Client, c': Client, b: Browser, drives: bool, drives': bool, scPrev: Buffer, d: Dims)
    requires SameFrame(c, c') && (drives' ==> drives)
    ensures ClientCoherent(c, b, drives, scPrev, d) ==> ClientCoherent(c', b, drives', scPrev, d)
    ensures AllAnchored(c, drives, scPrev, d) ==> AllAnchored(c', drives', scPrev, d)
  {
    forall t | 0 <= t < d.Total() && Anchored(c, drives, scPrev, t)
      ensures Anchored(c', drives', scPrev, t)
    {
      WeakenAnchor(c, c', drives, drives', scPrev, t);
    }
  }

  /** The two parts of the system an update request from k touches, seen from h. */
  lemma TockStep(s: System, h: Conn, k: Conn, e: Env, data: seq<Byte>)
    requires Classify(data).MTock? && h in s.server.clients && h in TockSeat(s.server, e).clients
    ensures var s1, s' := TockSeat(s.server, e), Step(s, Message(k, data, e)); var c := s1.clients[h];
      && s'.server.scPrev == s1.scPrev && s'.server.cap == s1.cap && s'.server.active == s1.active
      && h in s'.server.clients
      && s'.server.clients[h] == (if k == h then c.(mod := MarkSent(c.mod, s.world.dims.Total())) else c)
      && BrowserOf(s', h) == (if k == h then Receive(BrowserOf(s, h),
                                EncodeUpdate(TockHeader(s.server, s.world, h, e), Dirty(c, s.world.dims)))
                              else BrowserOf(s, h))
  {
  }

  lemma TockKeeps(s: System, h: Conn, k: Conn, e: Env, data: seq<Byte>)
    requires h in s.server.clients && Coherent(s, h) && Classify(data).MTock?
    requires k == h ==> Settled(s, h) && Reaches(s, h)
    ensures Coherent(Step(s, Message(k, data, e)), h)
  {
    var s1 := TockSeat(s.server, e);
    TockSeatFrame(s.server, e, h);
    var c, b := s1.clients[h], BrowserOf(s, h);
    Weaken(s.server.clients[h], c, b, s.server.active == Some(h), s1.active == Some(h), s1.scPrev, s1.cap);
    TockStep(s, h, k, e, data);
    if k == h {
      HeaderIsValid(s.server, s.world, h, e);
      TockClientKeeps(b, TockHeader(s.server, s.world, h, e), c, s1.active == Some(h), s1.scPrev, s1.cap);
    }
  }

  lemma PassTile(c: Client, frame: Buffer, d: Dims, t: int)
    requires d.Valid() && 0 <= t < d.Total()
    ensures var c' := PassClient(c, frame, d);
      c'.ownSc[t] == frame[t] && c'.ownPrev[t] == frame[t]
      && c'.mod[t] == if frame[t] != c.ownPrev[t] then 0 else c.mod[t]
  {
  }

  lemma CaptureTile(c: Client, sc: Buffer, scPrev: Buffer, d: Dims, cap: Dims, t: int)
    requires d.Valid() && 0 <= t < d.Total()
    ensures var c' := CaptureClient(c, sc, scPrev, d, cap);
      c'.ownSc[t] == sc[t] && c'.ownPrev[t] == c.ownPrev[t]
      && c'.mod[t] == if d != cap || sc[t] != scPrev[t] then 0 else c.mod[t]
  {
  }

  /** The extra pass: whatever it renders, clean tiles are the unchanged ones. */
  lemma PassKeeps(c: Client, b: Browser, drives: bool, scPrev: Buffer, frame: Buffer, scPrev': Buffer, d: Dims,
                  cap: Dims)
    requires d.Valid() && c.hasOwnCam && ClientCoherent(c, b, true, scPrev, cap)
    requires d != cap ==> CleanShowsPrev(c, b, d)
    ensures ClientCoherent(PassClient(c, frame, d), b, drives, scPrev', d)
    ensures AllAnchored(PassClient(c, frame, d), drives, scPrev', d)
  {
    var c' := PassClient(c, frame, d);
    forall t | 0 <= t < d.Total()
      ensures Anchored(c', drives, scPrev', t)
      ensures c'.mod[t] != 0 ==> View(b, d, t) == Some(Enc(c'.ownSc[t]))
    {
      PassTile(c, frame, d, t);
    }
  }

  /** The shared capture: a resize dirties everything, otherwise only differences. */
  lemma CaptureKeeps(c: Client, b: Browser, scPrev: Buffer, sc: Buffer, scPrev': Buffer, d: Dims, cap: Dims)
    requires d.Valid() && !c.hasOwnCam && ClientCoherent(c, b, false, scPrev, cap)
    requires forall t :: 0 <= t < d.Total() ==> scPrev'[t] == sc[t]
    ensures ClientCoherent(CaptureClient(c, sc, scPrev, d, cap), b, false, scPrev', d)
    ensures AllAnchored(CaptureClient(c, sc, scPrev, d, cap), false, scPrev', d)
  {
    var c' := CaptureClient(c, sc, scPrev, d, cap);
    forall t | 0 <= t < d.Total()
      ensures Anchored(c', false, scPrev', t)
      ensures c'.mod[t] != 0 ==> View(b, d, t) == Some(Enc(c'.ownSc[t]))
    {
      CaptureTile(c, sc, scPrev, d, cap, t);
    }
  }

  /** Promotion keeps the client coherent: a driver was anchored to own_sc_prev already. */
  lemma PromoteKeeps(s: Server, w: World, h: Conn, b: Browser)
    requires h in s.clients
    requires ClientCoherent(s.clients[h], b, s.active == Some(h), s.scPrev, s.cap)
    ensures var c := Promote(s, w, h, s.clients[h]);
      ClientCoherent(c, b, s.active == Some(h), s.scPrev, s.cap) && (s.active == Some(h) ==> c.hasOwnCam)
      && c.ownSc == s.clients[h].ownSc && c.ownPrev == s.clients[h].ownPrev
  {
  }

  /** A tick with a legal screen size leaves the client coherent and anchored everywhere. */
  lemma TickOne(s: Server, w: World, f: Frames, h: Conn, b: Browser)
    requires h in s.clients && w.dims.Valid()
    requires ClientCoherent(s.clients[h], b, s.active == Some(h), s.scPrev, s.cap)
    requires var c := Promote(s, w, h, s.clients[h]); w.dims != s.cap && c.hasOwnCam ==> CleanShowsPrev(c, b, w.dims)
    ensures var s' := Tick(s, w, f);
      && s'.cap == w.dims
      && ClientCoherent(s'.clients[h], b, s'.active == Some(h), s'.scPrev, s'.cap)
      && AllAnchored(s'.clients[h], s'.active == Some(h), s'.scPrev, s'.cap)
  {
    PromoteKeeps(s, w, h, b);
    var c, sc := Promote(s, w, h, s.clients[h]), Overwrite(s.sc, f.shared, w.dims.Total());
    var scPrev' := Overwrite(s.scPrev, sc, w.dims.Total());
    if c.hasOwnCam {
      PassKeeps(c, b, s.active == Some(h), s.scPrev, if c.cam == f.fed then sc else f.extra(h), scPrev', w.dims, s.cap);
    } else {
      CaptureKeeps(c, b, s.scPrev, sc, scPrev', w.dims, s.cap);
    }
  }

  /** Every other message either clears h's dirty bytes or leaves h's frame alone. */
  lemma MessageFrame(s: Server, w: World, k: Conn, m: Msg, e: Env, h: Conn)
    requires h in s.clients && !m.MTock?
    ensures var s' := OnMessage(s, w, k, m, e);
      && SameScene(s, s') && h in s'.clients
      && (s'.clients[h].mod == AllDirty()
          || (SameFrame(s.clients[h], s'.clients[h]) && (s'.active == Some(h) ==> s.active == Some(h))))
  {
    if m.MTurn? {
      if s.active == Some(k) {
        VacateFrame(s, e, h);
      } else if s.active.None? {
        TakeFrame(s, k, e, h);
      }
    }
  }

  lemma MessageKeeps(s: System, h: Conn, k: Conn, e: Env, data: seq<Byte>)
    requires h in s.server.clients && Coherent(s, h) && !Classify(data).MTock?
    ensures Coherent(Step(s, Message(k, data, e)), h)
  {
    var s' := OnMessage(s.server, s.world, k, Classify(data), e);
    MessageFrame(s.server, s.world, k, Classify(data), e, h);
    if s'.clients[h].mod != AllDirty() {
      Weaken(s.server.clients[h], s'.clients[h], BrowserOf(s, h), s.server.active == Some(h), s'.active == Some(h),
             s'.scPrev, s'.cap);
    }
  }

  lemma CloseKeeps(s: System, h: Conn, k: Conn, e: Env)
    requires h in s.server.clients && Coherent(s, h) && k != h
    ensures Coherent(Step(s, Close(k, e)), h)
  {
    VacateFrame(s.server, e, h);
    var s' := OnClose(s.server, k, e);
    Weaken(s.server.clients[h], s'.clients[h], BrowserOf(s, h), s.server.active == Some(h), s'.active == Some(h),
           s'.scPrev, s'.cap);
  }

  lemma TickKeeps(s: System, h: Conn, f: Frames)
    requires h in s.server.clients && Coherent(s, h) && TickLegal(s, h)
    ensures Coherent(Step(s, GameTick(f)), h)
  {
    var b := BrowserOf(s, h);
    if s.world.dims.Valid() {
      TickOne(s.server, s.world, f, h, b);
    } else {
      PromoteKeeps(s.server, s.world, h, b);
      assert Overwrite(s.server.scPrev, Overwrite(s.server.sc, f.shared, 0), 0) == s.server.scPrev;
      assert Tick(s.server, s.world, f).clients[h] == Promote(s.server, s.world, h, s.server.clients[h]);
    }
  }

  /** A fresh connection starts all dirty, whatever its browser had on screen. */
  lemma OpenKeeps(s: System, h: Conn, k: Conn, ok: bool, nick: Nick, admin: bool, b: Browser, e: Env)
    requires Coherent(s, h) && (k == h ==> h !in s.server.clients)
    ensures Coherent(Step(s, Open(k, ok, nick, admin, b, e)), h)
  {
    var s' := Step(s, Open(k, ok, nick, admin, b, e));
    if h in s'.server.clients {
      if k == h {
        assert s'.server.clients[h].mod == AllDirty();
      } else {
        assert s'.server.clients[h] == s.server.clients[h] && BrowserOf(s', h) == BrowserOf(s, h);
        assert s'.server.active == s.server.active && s'.server.scPrev == s.server.scPrev
          && s'.server.cap == s.server.cap;
      }
    }
  }

  lemma SetActiveKeys(s: Server, o: Option<Conn>, e: Env)
    ensures SetActive(s, o, e).clients.Keys == s.clients.Keys
  {
  }

  lemma PutKeys(s: Server, k: Conn, c: Client)
    ensures Put(s, k, c).clients.Keys == s.clients.Keys
  {
  }

  lemma MessageKeys(s: Server, w: World, k: Conn, m: Msg, e: Env)
    ensures OnMessage(s, w, k, m, e).clients.Keys == s.clients.Keys
  {
    match m
    case MKey(_, _, _) =>
    case MMouse(_) =>
    case MCursor(tx, ty) =>
      var c := Lookup(s, k);
      PutKeys(s, k, c.(cursorX := Base(c, w).x + tx, cursorY := Base(c, w).y + ty, cursorActive := true));
    case MRefresh => PutKeys(s, k, Lookup(s, k).(mod := AllDirty()));
    case MCam(d) => PutKeys(s, k, PanSpectator(Lookup(s, k), w, d));
    case MTurn => SetActiveKeys(s, None, e); SetActiveKeys(s, Some(k), e);
    case MTock =>
      SetActiveKeys(IdleTimer(s, e), None, e);
      var s1 := TockSeat(s, e);
      PutKeys(s1, k, Lookup(s1, k).(mod := MarkSent(Lookup(s1, k).mod, w.dims.Total())));
  }

  /** Only a connection brings a client in, and closing takes it away. */
  lemma AbsentStays(s: System, ev: Event, h: Conn)
    requires !ev.Open?
    requires h in s.server.clients ==> ev.Close? && ev.h == h
    ensures h !in Step(s, ev).server.clients
  {
    if ev.Message? { MessageKeys(s.server, s.world, ev.h, Classify(ev.data), ev.e); }
    if ev.Close? { SetActiveKeys(s.server, None, ev.e); }
  }

  /** One step of any interleaving keeps the invariant. */
  lemma StepKeeps(s: System, ev: Event, h: Conn)
    requires Coherent(s, h) && LegalFor(s, ev, h)
    ensures Coherent(Step(s, ev), h)
  {
    if ev.Open? {
      OpenKeeps(s, h, ev.h, ev.protocolOk, ev.nick, ev.admin, ev.browser, ev.e);
    } else if h !in s.server.clients || (ev.Close? && ev.h == h) {
      AbsentStays(s, ev, h);
    } else {
      match ev
      case Close(k, e) => CloseKeeps(s, h, k, e);
      case Message(k, data, e) =>
        if Classify(data).MTock? { TockKeeps(s, h, k, e, data); } else { MessageKeeps(s, h, k, e, data); }
      case GameTick(f) => TickKeeps(s, h, f);
      case Game(w) =>
    }
  }

  // ----- whole runs -----

  ghost predicate LegalRun(s: System, evs: seq<Event>, h: Conn) {
    evs == [] || (LegalRun(s, evs[..|evs| - 1], h) && LegalFor(Run(s, evs[..|evs| - 1]), evs[|evs| - 1], h))
  }

  /** The invariant along any legal run from any state that has it. */
  lemma {:induction false} CoherentAlong(s: System, evs: seq<Event>, h: Conn)
    requires Coherent(s, h) && LegalRun(s, evs, h)
    ensures Coherent(Run(s, evs), h)
    decreases |evs|
  {
    if evs != [] {
      CoherentAlong(s, evs[..|evs| - 1], h);
      StepKeeps(Run(s, evs[..|evs| - 1]), evs[|evs| - 1], h);
    }
  }

  /** Where the invariant starts anew: nobody is connected under h, or everything is due, as
      after a refresh, a spectator's camera move or taking the seat, whatever went before. */
  lemma FreshIsCoherent(s: System, h: Conn)
    requires h in s.server.clients ==> s.server.clients[h].mod == AllDirty()
    ensures Coherent(s, h)
  {
  }

  /** Sync safety: after any interleaving, from start-up or from any moment at which all of
      this client's tiles are due, in which its updates are answered while it is settled and
      reach it, its clean tiles are on its screen exactly. */
  lemma SyncSafety(s0: System, evs: seq<Event>, h: Conn)
    requires h in s0.server.clients ==> s0.server.clients[h].mod == AllDirty()
    requires LegalRun(s0, evs, h)
    ensures var s := Run(s0, evs);
      Coherent(s, h) && (h in s.server.clients ==> Exact(s.server.clients[h], BrowserOf(s, h), s.server.cap))
  {
    FreshIsCoherent(s0, h);
    CoherentAlong(s0, evs, h);
  }
}
