/** The websocket handlers of server/server.cpp, acting on the shared state in place. */
module Handlers {
  import Screen
  import M = Model
  import opened Bytes
  import opened Input
  import opened Wire
  import opened Live
  import opened Cursor
  import Packet

  method HideCursor(g: Globals, o: Option<M.Conn>)
    requires g.Valid()
    modifies if o.Some? && o.value in g.clients then {g.clients[o.value]} else {}
    ensures g.Valid() && g.Kept() && g.State() == M.HideCursor(old(g.State()), o)
  {
    if o.Some? && o.value in g.clients {
      g.clients[o.value].cursorActive := false;
      g.OnlyClientState(o.value);
    }
  }

  /** The turn clock starts and the whole screen is due. */
  method TakeSeat(g: Globals, h: M.Conn, round: int)
    requires g.Valid()
    modifies g.GetClient(h), g.GetClient(h).mod
    ensures g.Valid() && g.Kept() && g.State() == M.TakeSeat(old(g.State()), h, round)
  {
    var c := g.GetClient(h);
    c.atime := round;
    c.ClearMod();
    g.OnlyClientState(h);
  }

  method SetSeat(g: Globals, newc: Option<M.Conn>)
    requires g.Valid()
    modifies g`active
    ensures g.Valid() && g.Kept() && g.State() == old(g.State()).(active := newc)
  {
    g.active := newc;
    g.QuietStates();
  }

  method ResetIdleTimer(g: Globals, wall: int)
    requires g.Valid()
    modifies g`itime, g`timedOut
    ensures g.Valid() && g.Kept() && g.State() == old(g.State()).(itime := wall, timedOut := false)
  {
    g.itime, g.timedOut := wall, false;
    g.QuietStates();
  }

  method Simkey(g: Globals, down: bool, mods: Mods, sym: int, unicode: int)
    requires g.Valid()
    modifies g`keys
    ensures g.Valid() && g.Kept()
    ensures g.State() == old(g.State()).(keys := SimKey(old(g.keys), down, mods, sym, unicode))
  {
    if !down || (sym == K_UNKNOWN && unicode == 0) {
      return;
    }
    if K_RSHIFT <= sym <= K_LALT {
      return;
    }
    g.keys := g.keys + [KeyEvent(mods, sym, unicode)];
    g.QuietStates();
  }

  method SetActive(g: Globals, newc: Option<M.Conn>, e: M.Env)
    requires g.Valid()
    modifies g.Footprint()
    ensures g.Valid() && g.Kept() && g.State() == M.SetActive(old(g.State()), newc, e)
  {
    if g.active == newc {
      return;
    }
    HideCursor(g, g.active);
    SetSeat(g, newc);
    HideCursor(g, newc);
    if newc.Some? {
      TakeSeat(g, newc.value, e.round);
    } else if g.cfg.autosave {
      ResetIdleTimer(g, e.wall);
    }
    if !e.paused {
      Simkey(g, true, NO_MODS, K_SPACE, 32);
      Simkey(g, false, NO_MODS, K_SPACE, 32);
    }
  }

  /** saved tells whether the quicksave ran. */
  method IdleTimer(g: Globals, e: M.Env) returns (saved: bool)
    requires g.Valid()
    modifies g`timedOut
    ensures g.Valid() && g.Kept() && g.State() == M.IdleTimer(old(g.State()), e)
    ensures saved == M.SavesNow(old(g.State()), e)
  {
    saved := false;
    if !g.timedOut && g.active.None? {
      if e.wall - g.itime > 10 {
        saved := true;
        g.timedOut := true;
      }
    }
    g.QuietStates();
  }

  method GetTimeLeft(g: Globals, e: M.Env) returns (timeLeft: int, timeUp: bool)
    requires g.Valid()
    ensures g.Still()
    ensures timeLeft == M.TimeLeft(g.State(), e) && timeUp == M.TimeUp(g.State(), e)
  {
    timeLeft, timeUp := -1, false;
    var c := if g.active.Some? then g.GetClient(g.active.value) else g.nobody;
    ghost var s := g.State();
    assert c.atime == M.Holder(s).atime;
    g.ClientCount();
    if g.cfg.turnTime != 0 && g.active.Some? && |g.clients| > 1 {
      var played := Wrap32(e.round - c.atime);
      if played < g.cfg.turnTime {
        timeLeft := Wrap32(g.cfg.turnTime - played);
      } else {
        timeUp := true;
      }
    }
    assert timeLeft == M.TimeLeft(s, e) && timeUp == M.TimeUp(s, e);
  }

  /** A fresh client enters the map. */
  method Enlist(g: Globals, h: M.Conn, nick: M.Nick, admin: bool, round: int)
    requires g.Valid()
    modifies g`clients
    ensures g.Valid() && fresh(g.Footprint() - old(g.Footprint()))
    ensures g.State() == old(g.State()).(clients :=
      old(g.State()).clients[h := M.NewClient(nick, admin).(atime := round, cam := g.window)])
  {
    var cl := new Client(nick, admin);
    cl.atime := round;
    cl.cam := g.window;
    g.clients := g.clients[h := cl];
    g.JoinStates(h, cl);
    g.JoinFootprint(h, cl);
  }

  /** Opcode 118: the map in tiles, cut to sixteen bits; send_map_info multiplies in 32. */
  function MapInfo(m: M.MapSize): (data: seq<Byte>)
    ensures |data| == 7
  {
    var x, y, z := Cut16(m.sx * 16 % 0x1_0000_0000), Cut16(m.sy * 16 % 0x1_0000_0000), Cut16(m.sz);
    [118] + Le16(x) + Le16(y) + Le16(z)
  }

  function Cut16(v: nat): nat { if v < 65535 then v else 65535 }

  /** The browser's reading of one of the sizes. */
  function MapAxis(data: seq<Byte>, k: nat): int
    requires k + 1 < |data|
  {
    JsUint16(data[k], data[k + 1])
  }

  lemma AxisSurvives(v: nat, whole: nat)
    requires v == whole % 0x1_0000_0000 || v == whole
    ensures JsUint16(Le16(Cut16(v))[0], Le16(Cut16(v))[1]) == whole <==> whole <= 65535
  {
    var c := Cut16(v);
    assert c == 256 * (c / 256) + c % 256;
  }

  /** The browser learns the map's size in tiles, on each axis if and only if it fits sixteen
      bits. */
  lemma MapInfoRoundTrip(m: M.MapSize)
    ensures MapInfo(m)[0] == 118
    ensures MapAxis(MapInfo(m), 1) == m.sx * 16 <==> m.sx * 16 <= 65535
    ensures MapAxis(MapInfo(m), 3) == m.sy * 16 <==> m.sy * 16 <= 65535
    ensures MapAxis(MapInfo(m), 5) == m.sz <==> m.sz <= 65535
  {
    AxisSurvives(m.sx * 16 % 0x1_0000_0000, m.sx * 16);
    AxisSurvives(m.sy * 16 % 0x1_0000_0000, m.sy * 16);
    AxisSurvives(m.sz, m.sz);
  }

  method OnOpen(g: Globals, h: M.Conn, protocolOk: bool, nick: M.Nick, admin: bool, e: M.Env)
    returns (info: Option<seq<Byte>>)
    requires g.Valid()
    modifies g`clients
    ensures info
         == if M.Admits(old(g.State()), protocolOk, nick) && g.size.Some? then Some(MapInfo(g.size.value)) else None
    ensures g.Valid() && fresh(g.Footprint() - old(g.Footprint()))
    ensures g.State() == M.OnOpen(old(g.State()), g.World(), h, protocolOk, nick, admin, e)
    ensures g.World() == old(g.World())
  {
    info := None;
    if !protocolOk {
      return;
    }
    g.ClientCount();
    if |g.clients| >= g.cfg.maxClients {
      return;
    }
    if nick == M.NOBODY {
      return;
    }
    Enlist(g, h, nick, admin, e.round);
    if g.size.Some? {
      info := Some(MapInfo(g.size.value));
    }
  }

  method Erase(g: Globals, h: M.Conn)
    requires g.Valid()
    modifies g`clients
    ensures g.Valid() && g.Footprint() <= old(g.Footprint())
    ensures g.State() == Without(old(g.State()), h)
  {
    g.clients := g.clients - {h};
    g.LeaveStates(h);
    g.LeaveFootprint(h);
  }

  ghost function Without(s: M.Server, h: M.Conn): M.Server {
    s.(clients := s.clients - {h})
  }

  method Unseat(g: Globals, h: M.Conn, e: M.Env)
    requires g.Valid()
    modifies g.Footprint()
    ensures g.Valid() && g.Kept()
    ensures var s := old(g.State());
      g.State() == if h in s.clients && s.active == Some(h) then M.SetActive(s, None, e) else s
  {
    var cl := g.GetClient(h);
    if cl != g.nobody {
      if g.active == Some(h) {
        SetActive(g, None, e);
      }
    }
  }

  method OnClose(g: Globals, h: M.Conn, e: M.Env)
    requires g.Valid()
    modifies g.Footprint()
    ensures g.Valid() && g.Footprint() <= old(g.Footprint())
    ensures g.State() == M.OnClose(old(g.State()), h, e)
    ensures g.World() == old(g.World())
  {
    Unseat(g, h, e);
    Erase(g, h);
  }

  // ----- messages -----

  method PlaceCursor(g: Globals, h: M.Conn, x: int, y: int)
    requires g.Valid() && h in g.clients
    modifies g.clients[h]
    ensures g.Valid() && g.Kept()
    ensures var s := old(g.State());
      g.State() == M.Put(s, h, M.Lookup(s, h).(cursorX := x, cursorY := y, cursorActive := true))
  {
    g.clients[h].ShowCursor(x, y);
    g.OnlyClientState(h);
  }

  method CursorMove(g: Globals, h: M.Conn, tx: Byte, ty: Byte)
    requires g.Valid()
    modifies if h in g.clients then {g.clients[h]} else {}
    ensures g.Valid() && g.Kept() && g.State() == M.CursorMove(old(g.State()), g.World(), h, tx, ty)
  {
    if g.active == Some(h) || h !in g.clients {
      return;
    }
    var c := g.clients[h];
    var base := if c.hasOwnCam then c.cam else g.window;
    ghost var s, w := g.State(), g.World();
    assert M.Lookup(s, h) == c.State() && base == M.Base(c.State(), w);
    assert M.CursorMove(s, w, h, tx, ty)
        == M.Put(s, h, M.Lookup(s, h).(cursorX := base.x + tx, cursorY := base.y + ty, cursorActive := true));
    PlaceCursor(g, h, base.x + tx, base.y + ty);
  }

  method RefreshScreen(g: Globals, h: M.Conn)
    requires g.Valid()
    modifies g.GetClient(h).mod
    ensures g.Valid() && g.Kept() && g.State() == M.Refresh(old(g.State()), h)
  {
    var c := g.GetClient(h);
    c.ClearMod();
    g.OnlyClientState(h);
  }

  method KeyStrokes(g: Globals, k: int, ch: Byte, js: Byte)
    requires g.Valid()
    modifies g`keys
    ensures g.Valid() && g.Kept() && g.State() == old(g.State()).(keys := KeyCalls(old(g.keys), k, ch, js))
  {
    var mods := JsMods(js);
    if mods.alt { Simkey(g, true, NO_MODS, K_LALT, 0); }
    if mods.shift { Simkey(g, true, NO_MODS, K_LSHIFT, 0); }
    if mods.ctrl { Simkey(g, true, NO_MODS, K_LCTRL, 0); }
    Simkey(g, true, mods, k, ch);
    Simkey(g, false, mods, k, ch);
    if mods.alt { Simkey(g, false, NO_MODS, K_LALT, 0); }
    if mods.shift { Simkey(g, false, NO_MODS, K_LSHIFT, 0); }
    if mods.ctrl { Simkey(g, false, NO_MODS, K_LCTRL, 0); }
  }

  method OnKey(g: Globals, h: M.Conn, code: Byte, ch: Byte, js: Byte, e: M.Env)
    requires g.Valid()
    modifies g`keys
    ensures g.Valid() && g.Kept() && g.State() == M.KeyMessage(old(g.State()), h, code, ch, js, e)
  {
    if g.active != Some(h) {
      return;
    }
    var cl := g.GetClient(h);
    var k := if ch != 0 then ch else MapInputCode(code);
    var isSafeKey := cl.admin || k != K_ESCAPE || e.safeToEscape;
    ghost var s := g.State();
    assert M.Lookup(s, h) == cl.State();
    if k != K_UNKNOWN && isSafeKey {
      KeyStrokes(g, k, ch, js);
    }
  }

  method OnMouse(g: Globals, h: M.Conn, ev: MouseEvent)
    requires g.Valid()
    modifies g`mice
    ensures g.Valid() && g.Kept() && g.State() == M.MouseMessage(old(g.State()), h, ev)
  {
    if g.active != Some(h) {
      return;
    }
    g.mice := g.mice + [ev];
    g.QuietStates();
  }

  method QueueDeltas(g: Globals, d: Pos)
    requires g.Valid()
    modifies g`pending
    ensures g.Valid() && g.Kept() && g.State() == old(g.State()).(pending := M.Accumulate(old(g.pending), d))
  {
    g.pending := Pos(Wrap32(g.pending.x + d.x), Wrap32(g.pending.y + d.y), Wrap32(g.pending.z + d.z));
    g.QuietStates();
  }

  method PanClient(g: Globals, h: M.Conn, d: Pos)
    requires g.Valid() && h in g.clients
    modifies g.clients[h], g.clients[h].mod
    ensures g.Valid() && g.Kept()
    ensures g.State() == M.Put(old(g.State()), h, M.PanSpectator(M.Lookup(old(g.State()), h), g.World(), d))
  {
    g.clients[h].Pan(g.World(), d);
    g.OnlyClientState(h);
  }

  method CamMove(g: Globals, h: M.Conn, d: Pos)
    requires g.Valid()
    modifies g.Footprint()
    ensures g.Valid() && g.Kept() && g.State() == M.CamMove(old(g.State()), g.World(), h, d)
  {
    if h !in g.clients {
      return;
    }
    if g.active == Some(h) {
      QueueDeltas(g, d);
    } else {
      PanClient(g, h, d);
    }
  }

  method RequestTurn(g: Globals, h: M.Conn, e: M.Env)
    requires g.Valid()
    modifies g.Footprint()
    ensures g.Valid() && g.Kept() && g.State() == M.RequestTurn(old(g.State()), h, e)
  {
    if g.active == Some(h) {
      SetActive(g, None, e);
    } else if g.active.None? {
      SetActive(g, Some(h), e);
    }
  }

  // ----- tock -----

  /** Idle save and turn timer; the reported time is read before the seat is cleared. */
  method TockSeat(g: Globals, e: M.Env) returns (timeLeft: int)
    requires g.Valid()
    modifies g.Footprint()
    ensures g.Valid() && g.Kept() && g.State() == M.TockSeat(old(g.State()), e)
    ensures timeLeft == M.TimeLeft(M.IdleTimer(old(g.State()), e), e)
  {
    var _ := IdleTimer(g, e);
    var timeUp;
    timeLeft, timeUp := GetTimeLeft(g, e);
    if timeUp {
      SetActive(g, None, e);
    }
  }

  method SendUpdate(g: Globals, h: M.Conn, header: Header) returns (packet: seq<Byte>)
    requires g.Valid() && header.dims == g.dims && g.dims.Fits()
    modifies g.GetClient(h).mod
    ensures g.Valid() && g.Kept()
    ensures var s := old(g.State());
      && packet == EncodeUpdate(header, M.Dirty(M.Lookup(s, h), g.dims)) && |packet| <= Packet.BUF
      && g.State() == M.Put(s, h, M.Lookup(s, h).(mod := Screen.MarkSent(M.Lookup(s, h).mod, g.dims.Total())))
  {
    var cl := g.GetClient(h);
    packet := Packet.WriteUpdate(header, cl.mod, cl.ownSc, cl.State());
    g.OnlyClientState(h);
  }

  /** The header's fields as tock gathers them, once the seat is settled. */
  method Gather(g: Globals, h: M.Conn, e: M.Env, timeLeft: int, nick: M.Nick) returns (header: Header)
    requires g.Valid()
    ensures g.Still()
    ensures header == Header(|g.clients|, g.active == Some(h), g.active.None?, g.cfg.ingameTime, e.ui.graphics,
                             e.ui.atlas % 16, e.ui.menu, timeLeft, g.dims,
                             M.Base(M.Lookup(g.State(), h), g.World()), nick)
  {
    var cl := g.GetClient(h);
    assert M.Lookup(g.State(), h) == cl.State();
    var cam := if cl.hasOwnCam then cl.cam else g.window;
    header := Header(|g.clients|, g.active == Some(h), g.active.None?, g.cfg.ingameTime, e.ui.graphics,
                     e.ui.atlas % 16, e.ui.menu, timeLeft, g.dims, cam, nick);
  }

  ghost predicate Lists(order: seq<M.Conn>, keys: set<M.Conn>) {
    && (forall k :: k in order <==> k in keys)
    && (forall i, j :: 0 <= i < j < |order| ==> order[i] != order[j])
  }

  /** The seat is settled and the header's fields are gathered; the holder is looked up first. */
  method Announce(g: Globals, h: M.Conn, e: M.Env) returns (header: Header)
    requires g.Valid()
    modifies g.Footprint()
    ensures g.Valid() && g.Kept() && g.State() == M.TockSeat(old(g.State()), e)
    ensures header == M.TockHeader(old(g.State()), g.World(), h, e)
  {
    ghost var s := g.State();
    var activeCl := if g.active.Some? then g.GetClient(g.active.value) else g.nobody;
    var nick := activeCl.nick;
    assert nick == M.Holder(s).nick;
    var timeLeft := TockSeat(g, e);
    g.ClientCount();
    header := Gather(g, h, e, timeLeft, nick);
  }

  /** Both packets of one update request; order is the client map's. */
  method Tock(g: Globals, h: M.Conn, e: M.Env, order: seq<M.Conn>) returns (update: seq<Byte>, cursors: seq<Byte>)
    requires g.Valid() && g.dims.Fits() && Lists(order, g.clients.Keys)
    modifies g.Footprint()
    ensures g.Valid() && g.Kept() && g.State() == M.Tock(old(g.State()), g.World(), h, e)
    ensures update == M.TockPacket(old(g.State()), g.World(), h, e) && |update| <= Packet.BUF
    ensures (forall k :: k in order ==> k in g.State().clients)
    ensures cursors == CursorPacket(Visible(g.State(), g.World(), h, order)) && |cursors| <= CBUF
  {
    var header := Announce(g, h, e);
    update := SendUpdate(g, h, header);
    cursors := WriteCursors(g, h, order);
  }

  /** A client's cursor in world tiles, if it has one to show. */
  function CursorOf(g: Globals, k: M.Conn): (r: Option<(int, int)>)
    requires g.Valid() && k in g.clients
    reads g, g.Footprint()
    ensures r == WorldCursor(g.State(), g.World(), k)
  {
    var c := g.clients[k];
    assert g.State().clients[k] == c.State();
    if g.active == Some(k) then
      (if g.gps.mouse.x >= 0 then Some((g.window.x + g.gps.mouse.x, g.window.y + g.gps.mouse.y)) else None)
    else if c.cursorActive then Some((c.cursorX, c.cursorY)) else None
  }

  /** Where, if anywhere, h sees k's cursor. */
  function SeenAt(g: Globals, h: M.Conn, k: M.Conn): (r: Option<(int, int)>)
    requires g.Valid() && k in g.clients
    reads g, g.Footprint()
    ensures r == Sees(g.State(), g.World(), h, k)
  {
    var cl := g.GetClient(h);
    assert M.Lookup(g.State(), h) == cl.State();
    var p := CursorOf(g, k);
    if k == h || p.None? then None else
    var base := if cl.hasOwnCam then cl.cam else g.window;
    var cx, cy := p.value.0 - base.x, p.value.1 - base.y;
    if cx < 0 || cy < 0 || cx >= g.dims.w || cy >= g.dims.h then None else Some((cx, cy))
  }

  /** The entry for one client of the map. */
  function FindCursor(g: Globals, h: M.Conn, k: M.Conn, color: Byte): (r: Option<Entry>)
    requires g.Valid() && g.dims.Fits() && k in g.clients
    reads g, g.Footprint()
    ensures r == Candidate(g.State(), g.World(), h, k, color)
  {
    var at := SeenAt(g, h, k);
    assert g.State().clients[k] == g.clients[k].State();
    if at.None? then None else Some(Entry(g.clients[k].nick, at.value.0, at.value.1, color))
  }

  /** Writing a cursor leaves the shared state alone. */
  method WriteCursor(g: Globals, cbuf: array<Byte>, cb: nat, count: int, e: Option<Entry>, ghost out: seq<Entry>)
    returns (cb': nat, count': int, full: bool, ghost out': seq<Entry>)
    requires g.Valid() && g.Foreign(cbuf) && cbuf.Length == CBUF && Written(cbuf, cb, count, out)
    modifies cbuf
    ensures g.Still() && Written(cbuf, cb', count', out')
    ensures out' == Fitting(Extend(out, e)) && (full <==> out' != Extend(out, e))
  {
    cb', count', full, out' := AddCursor(cbuf, cb, count, e, out);
    g.StayedStill();
  }

  /** One turn of the cursor loop. */
  method CursorStep(g: Globals, h: M.Conn, k: M.Conn, color: Byte, cbuf: array<Byte>, cb: nat, count: int,
                    ghost out: seq<Entry>)
    returns (cb': nat, count': int, full: bool, ghost out': seq<Entry>)
    requires g.Valid() && g.dims.Fits() && k in g.clients
    requires g.Foreign(cbuf) && cbuf.Length == CBUF && Written(cbuf, cb, count, out)
    modifies cbuf
    ensures g.Still() && Written(cbuf, cb', count', out')
    ensures var c := Candidate(old(g.State()), g.World(), h, k, color);
      out' == Fitting(Extend(out, c)) && (full <==> out' != Extend(out, c))
  {
    var entry := FindCursor(g, h, k, color);
    cb', count', full, out' := WriteCursor(g, cbuf, cb, count, entry, out);
  }

  /** tock's cursor loop, writing through cb into a 4096-byte buffer. */
  method CursorLoop(g: Globals, h: M.Conn, order: seq<M.Conn>, cbuf: array<Byte>)
    returns (cb: nat, count: int, ghost out: seq<Entry>)
    requires g.Valid() && g.dims.Fits() && (forall k :: k in order ==> k in g.clients)
    requires cbuf.Length == CBUF && g.Foreign(cbuf)
    modifies cbuf
    ensures g.Still()
    ensures out == Fitting(Visible(g.State(), g.World(), h, order)) && Written(cbuf, cb, count, out)
  {
    cb, count, out := 2, 0, [];
    ghost var s, w := g.State(), g.World();
    var colorIdx: int := 0;
    var i := 0;
    var full := false;
    while i < |order| && !full
      invariant 0 <= i <= |order|
      invariant g.Still() && g.Foreign(cbuf) && s == g.State() && w == g.World()
      invariant out == Fitting(Visible(s, w, h, order[..i]))
      invariant !full <==> out == Visible(s, w, h, order[..i])
      invariant colorIdx == Low(i)
      invariant Written(cbuf, cb, count, out)
    {
      VisibleStep(s, w, h, order, i);
      cb, count, full, out := CursorStep(g, h, order[i], colorIdx, cbuf, cb, count, out);
      LowStep(colorIdx, i);
      colorIdx := Low(colorIdx + 1);
      i := i + 1;
    }
    StuckFitting(s, w, h, order, i);
  }

  method CursorBuffer(g: Globals) returns (cbuf: array<Byte>)
    requires g.Valid()
    ensures g.Still() && fresh(cbuf) && g.Foreign(cbuf) && cbuf.Length == CBUF
  {
    cbuf := new Byte[CBUF](_ => 0);
    g.StayedStill();
  }

  /** The message type and the count go in front. */
  method Seal(g: Globals, cbuf: array<Byte>, cb: nat, count: Byte) returns (packet: seq<Byte>)
    requires g.Valid() && g.Foreign(cbuf) && 2 <= cb <= cbuf.Length
    modifies cbuf
    ensures g.Still() && packet == [112, count] + old(cbuf[2..cb])
  {
    cbuf[0], cbuf[1] := 112, count;
    packet := cbuf[..cb];
    assert packet[2..] == old(cbuf[2..cb]);
    g.StayedStill();
  }

  method WriteCursors(g: Globals, h: M.Conn, order: seq<M.Conn>) returns (packet: seq<Byte>)
    requires g.Valid() && g.dims.Fits() && forall k :: k in order ==> k in g.clients
    ensures g.Still()
    ensures packet == CursorPacket(Visible(g.State(), g.World(), h, order)) && |packet| <= CBUF
  {
    var cbuf := CursorBuffer(g);
    var cb, count, out := CursorLoop(g, h, order, cbuf);
    packet := Seal(g, cbuf, cb, count);
  }

  // ----- on_message -----

  datatype Reply = Silent | Packets(update: seq<Byte>, cursors: seq<Byte>)

  lemma DispatchIs(s: M.Server, w: M.World, h: M.Conn, m: M.Msg, e: M.Env)
    ensures m.MKey? ==> M.OnMessage(s, w, h, m, e) == M.KeyMessage(s, h, m.code, m.ch, m.js, e)
    ensures m.MMouse? ==> M.OnMessage(s, w, h, m, e) == M.MouseMessage(s, h, m.ev)
    ensures m.MCursor? ==> M.OnMessage(s, w, h, m, e) == M.CursorMove(s, w, h, m.tx, m.ty)
    ensures m.MRefresh? ==> M.OnMessage(s, w, h, m, e) == M.Refresh(s, h)
    ensures m.MCam? ==> M.OnMessage(s, w, h, m, e) == M.CamMove(s, w, h, m.d)
    ensures m.MTurn? ==> M.OnMessage(s, w, h, m, e) == M.RequestTurn(s, h, e)
    ensures m.MTock? ==> M.OnMessage(s, w, h, m, e) == M.Tock(s, w, h, e)
  {
  }

  /** The dispatch on the first byte and the length. */
  method OnMessage(g: Globals, h: M.Conn, data: seq<Byte>, e: M.Env, order: seq<M.Conn>) returns (r: Reply)
    requires g.Valid() && g.dims.Fits() && Lists(order, g.clients.Keys)
    modifies g.Footprint()
    ensures g.Valid() && g.Kept() && g.State() == M.OnMessage(old(g.State()), g.World(), h, M.Classify(data), e)
    ensures r.Packets? <==> M.Classify(data).MTock?
    ensures r.Packets? ==> r.update == M.TockPacket(old(g.State()), g.World(), h, e)
    ensures r.Packets? ==>
      (forall k :: k in order ==> k in g.State().clients)
      && r.cursors == CursorPacket(Visible(g.State(), g.World(), h, order))
  {
    r := Silent;
    ghost var s, w, m := g.State(), g.World(), M.Classify(data);
    DispatchIs(s, w, h, m, e);
    var op: int := if data == [] then 0 else data[0];
    var n := |data|;
    if op == 111 && n == 4 {
      OnKey(g, h, data[1], data[2], data[3], e);
    } else if op == 113 && n == 5 {
      OnMouse(g, h, MouseEvent(data[1], data[2], data[3], M.KindOf(data[4])));
    } else if op == 114 && n == 3 {
      CursorMove(g, h, data[1], data[2]);
    } else if op == 115 {
      RefreshScreen(g, h);
    } else if op == 117 && n == 4 {
      CamMove(g, h, Pos(Int8(data[1]), Int8(data[2]), Int8(data[3])));
    } else if op == 116 {
      RequestTurn(g, h, e);
    } else {
      var update, cursors := Tock(g, h, e, order);
      r := Packets(update, cursors);
    }
  }
}
