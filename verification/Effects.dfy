/** What each kind of event is for: who is let in, what every browser message means, and what
    it makes the server do, told without the handlers' own definitions. */
module Effects {
  import Screen
  import Wire
  import Ledger
  import Seat
  import Names
  import Sync
  import opened Bytes
  import opened Input
  import opened Model

  // ----- admission -----

  lemma NobodyIs()
    ensures |NOBODY| == 8 && forall i :: 0 <= i < 8 ==> NOBODY[i] == "__NOBODY"[i] as int
  {
  }

  /** A connection is let in exactly when it speaks the protocol, there is room and its name is
      not the reserved one. */
  lemma AdmittedIff(s: Server, w: World, h: Conn, ok: bool, nick: Nick, admin: bool, e: Env)
    requires h !in s.clients
    ensures h in OnOpen(s, w, h, ok, nick, admin, e).clients <==>
      ok && |s.clients| < s.cfg.maxClients && nick != NOBODY
  {
  }

  /** Whoever is let in starts on the viewport with everything due, nothing drawn, no seat and
      no pointer; nobody else is touched. */
  lemma NewcomerStarts(s: Server, w: World, h: Conn, ok: bool, nick: Nick, admin: bool, e: Env)
    requires h !in s.clients && h in OnOpen(s, w, h, ok, nick, admin, e).clients
    ensures var s' := OnOpen(s, w, h, ok, nick, admin, e);
      var c := s'.clients[h];
      && c.nick == nick && c.admin == admin && c.atime == e.round && Base(c, w) == w.window && c.cam == w.window
      && !c.hasOwnCam && !c.cursorActive
      && (forall t :: 0 <= t < Screen.CELLS ==> c.mod[t] == 0 && c.ownSc[t] == c.ownPrev[t] == Screen.BLANK)
      && s' == s.(clients := s.clients[h := c])
  {
  }

  lemma GrowsByOne(m: map<Conn, Client>, h: Conn, c: Client)
    ensures |m[h := c]| <= |m| + 1
  {
    assert m[h := c].Keys == m.Keys + {h};
  }

  lemma NoMoreKeys(m: map<Conn, Client>, m': map<Conn, Client>)
    requires m'.Keys <= m.Keys
    ensures |m'| <= |m|
  {
    assert m.Keys == m'.Keys + (m.Keys - m'.Keys);
    assert |m| == |m.Keys| && |m'| == |m'.Keys|;
  }

  lemma StepSize(s: System, ev: Event)
    ensures |Step(s, ev).server.clients| <= |s.server.clients|
            || |Step(s, ev).server.clients| <= s.server.cfg.maxClients
  {
    match ev
    case Open(h, _, nick, admin, _, e) =>
      GrowsByOne(s.server.clients, h, NewClient(nick, admin).(atime := e.round, cam := s.world.window));
    case Close(h, e) =>
      Sync.SetActiveKeys(s.server, None, e);
      NoMoreKeys(s.server.clients, Step(s, ev).server.clients);
    case Message(h, data, e) =>
      Sync.MessageKeys(s.server, s.world, h, Classify(data), e);
      NoMoreKeys(s.server.clients, Step(s, ev).server.clients);
    case GameTick(f) => NoMoreKeys(s.server.clients, Step(s, ev).server.clients);
    case Game(_) =>
  }

  /** Over any run there are never more clients than allowed, and none has the reserved name. */
  lemma {:induction false} RoomKept(cfg: Config, w: World, evs: seq<Event>)
    ensures var s := Run(InitSystem(cfg, w), evs).server;
      |s.clients| <= cfg.maxClients && forall h :: h in s.clients ==> s.clients[h].nick != NOBODY
    decreases |evs|
  {
    if evs != [] {
      var n := |evs| - 1;
      var s := Run(InitSystem(cfg, w), evs[..n]);
      RoomKept(cfg, w, evs[..n]);
      Seat.ConfigFixed(cfg, w, evs[..n]);
      StepSize(s, evs[n]);
      Names.StepNames(s, evs[n]);
    }
  }

  // ----- what the browser sends -----

  function Bit(b: bool, v: int): int { if b then v else 0 }

  /** onkeydown and onkeypress; a key code or a character, and the modifiers held. */
  function KeyDownMessage(code: Byte, shift: bool, ctrl: bool, alt: bool): seq<Byte> {
    [111, code, 0, Bit(shift, 2) + Bit(ctrl, 4) + Bit(alt, 1)]
  }

  function KeyPressMessage(ch: Byte, shift: bool, ctrl: bool, alt: bool): seq<Byte> {
    [111, 0, ch, Bit(shift, 2) + Bit(ctrl, 4) + Bit(alt, 1)]
  }

  /** Key messages arrive as the key, the character and the modifiers that were pressed. */
  lemma KeysArrive(code: Byte, ch: Byte, shift: bool, ctrl: bool, alt: bool)
    ensures var m := Classify(KeyDownMessage(code, shift, ctrl, alt));
      m.MKey? && Ledger.Press(m.code, m.ch, m.js) == KeyEvent(Mods(shift, ctrl, alt), MapInputCode(code), 0)
    ensures var m := Classify(KeyPressMessage(ch, shift, ctrl, alt));
      ch != 0 ==>
      m.MKey? && Ledger.Press(m.code, m.ch, m.js) == KeyEvent(Mods(shift, ctrl, alt), ch, ch)
  {
  }

  /** sendMouseEvent with MOUSE_MOVE, MOUSE_DOWN, MOUSE_UP and MOUSE_WHEEL; the pointer of a
      spectator; connect, requestTurn and update. */
  lemma OthersArrive(x: Byte, y: Byte, button: Byte)
    ensures Classify([113, x, y, button, 0]) == MMouse(MouseEvent(x, y, button, Move))
    ensures Classify([113, x, y, button, 1]) == MMouse(MouseEvent(x, y, button, Down))
    ensures Classify([113, x, y, button, 2]) == MMouse(MouseEvent(x, y, button, Up))
    ensures Classify([113, x, y, button, 3]) == MMouse(MouseEvent(x, y, button, Wheel))
    ensures Classify([114, x, y]) == MCursor(x, y)
    ensures Classify([115]) == MRefresh && Classify([116]) == MTurn && Classify([110]) == MTock
  {
  }

  // ----- what messages do -----

  ghost predicate AllDue(c: Client) {
    forall t :: 0 <= t < Screen.CELLS ==> c.mod[t] == 0
  }

  /** A refresh, a spectator's camera move and taking the empty seat make every tile of their
      sender due; no other message but an update touches what is due to it, and none touches
      what is due to anyone else. */
  lemma MakesDue(s: Server, w: World, k: Conn, m: Msg, e: Env, h: Conn)
    requires k in s.clients && h in s.clients && h in OnMessage(s, w, k, m, e).clients
    ensures var c, c' := s.clients[h], OnMessage(s, w, k, m, e).clients[h];
      if k == h && (m.MRefresh? || (m.MCam? && s.active != Some(k)) || (m.MTurn? && s.active.None?)) then AllDue(c')
      else k != h || !m.MTock? ==> c'.mod == c.mod
  {
    match m
    case MTurn => Sync.VacateFrame(s, e, h); if s.active.None? { Sync.TakeFrame(s, k, e, h); }
    case MTock => OtherTock(s, w, k, e, h);
    case _ =>
  }

  lemma OtherTock(s: Server, w: World, k: Conn, e: Env, h: Conn)
    requires k in s.clients && h in s.clients && h in Tock(s, w, k, e).clients
    ensures k != h ==> Tock(s, w, k, e).clients[h].mod == s.clients[h].mod
  {
    Sync.TockSeatFrame(s, e, h);
  }

  /** After a refresh the next update the client asks for carries the whole screen. */
  lemma RefreshResends(s: Server, w: World, h: Conn, e: Env, e': Env, x: int, y: int)
    requires h in s.clients && w.dims.Valid() && w.dims.Has(x, y)
    ensures var s1 := TockSeat(OnMessage(s, w, h, MRefresh, e), e');
      && h in s1.clients && 0 <= Screen.At(w.dims, x, y) < Screen.CELLS
      && s1.clients[h].mod[Screen.At(w.dims, x, y)] == 0
  {
    Screen.AtInRange(w.dims, x, y);
    MakesDue(s, w, h, MRefresh, e, h);
    Sync.TockSeatFrame(OnMessage(s, w, h, MRefresh, e), e', h);
  }

  /** A change of the seat leaves neither the one who had it nor the one who has it with a
      spectator's pointer on screen. */
  lemma SeatHidesPointers(s: Server, o: Option<Conn>, e: Env)
    requires s.active != o
    ensures var s' := SetActive(s, o, e);
      && (s.active.Some? && s.active.value in s'.clients ==> !s'.clients[s.active.value].cursorActive)
      && (o.Some? && o.value in s'.clients ==> !s'.clients[o.value].cursorActive)
  {
  }

  // ----- what a tick does besides frames -----

  /** The driver's camera is where the drained viewport is, and theirs from then on. */
  lemma DriverFollowsViewport(s: Server, w: World, f: Frames, h: Conn)
    requires s.active == Some(h) && h in s.clients
    ensures var c := Tick(s, w, f).clients[h]; c.hasOwnCam && c.cam == DrainedWindow(s, w)
  {
  }

  /** Nobody else's camera moves in a tick. */
  lemma OthersStay(s: Server, w: World, f: Frames, h: Conn)
    requires s.active != Some(h) && h in s.clients
    ensures var c, c' := s.clients[h], Tick(s, w, f).clients[h]; c'.hasOwnCam == c.hasOwnCam && c'.cam == c.cam
  {
  }

  predicate Places(ev: MouseEvent) { ev.kind == Move || ev.kind == Down }

  /** Where the game's own mouse is after a tick: on the tile of the last move or press ever
      made, if any; failing that on that of the last mouse event of all; else where it was. */
  lemma MouseAfterTick(s: Server, w: World, f: Frames, i: int)
    requires s.tileX >= -1
    ensures var w' := TickWorld(s, w, f);
      && (0 <= i < |s.mice| && Places(s.mice[i]) && (forall j :: i < j < |s.mice| ==> !Places(s.mice[j])) ==>
           w'.mouseX == s.mice[i].x && w'.mouseY == s.mice[i].y)
      && ((forall j :: 0 <= j < |s.mice| ==> !Places(s.mice[j])) ==>
           if s.tileX >= 0 then w'.mouseX == s.tileX && w'.mouseY == s.tileY
           else if s.mice != [] then w'.mouseX == s.mice[|s.mice| - 1].x && w'.mouseY == s.mice[|s.mice| - 1].y
           else w'.mouseX == w.mouseX && w'.mouseY == w.mouseY)
  {
    RestsOn(s.mice, s.tileX, s.tileY, i);
  }

  lemma {:induction false} RestsOn(mice: seq<MouseEvent>, x: int, y: int, i: int)
    ensures 0 <= i < |mice| && Places(mice[i]) && (forall j :: i < j < |mice| ==> !Places(mice[j])) ==>
      FlushMice(mice, x, y) == (mice[i].x, mice[i].y)
    ensures (forall j :: 0 <= j < |mice| ==> !Places(mice[j])) ==> FlushMice(mice, x, y) == (x, y)
    decreases |mice|
  {
    if mice != [] {
      var ev := mice[0];
      assert forall j :: 0 <= j < |mice[1..]| ==> mice[1..][j] == mice[j + 1];
      assert forall j :: 1 <= j < |mice| ==> mice[j] == mice[1..][j - 1];
      RestsOn(mice[1..], if Places(ev) then ev.x else x, if Places(ev) then ev.y else y, i - 1);
    }
  }
}
