/** Accounts kept over whole runs: idle saves, queued input, and camera moves. */
module Ledger {
  import opened Bytes
  import opened Input
  import opened Wire
  import opened Model
  import Seat

  // ----- idle saves -----

  predicate Saves(s: Server, ev: Event) {
    ev.Message? && Classify(ev.data).MTock? && SavesNow(s, ev.e)
  }

  predicate Releases(s: System, ev: Event) {
    s.server.active.Some? && Step(s, ev).server.active.None?
  }

  lemma VacateIdle(s: Server, e: Env)
    requires s.active.Some?
    ensures var s' := SetActive(s, None, e);
      s'.active.None? && s'.timedOut == (s.timedOut && !s.cfg.autosave)
      && s'.itime == (if s.cfg.autosave then e.wall else s.itime)
  {
  }

  lemma TakeIdle(s: Server, h: Conn, e: Env)
    ensures SetActive(s, Some(h), e).timedOut == s.timedOut && SetActive(s, Some(h), e).itime == s.itime
  {
  }

  /** Arming and disarming, for one handler's change from s to s'. */
  predicate IdleChange(s: Server, s': Server, wall: int, saves: bool) {
    var rearm := s.active.Some? && s'.active.None? && s.cfg.autosave;
    && s'.timedOut == (if rearm then false else s.timedOut || saves)
    && s'.itime == (if rearm then wall else s.itime)
  }

  lemma TockIdle(s: Server, e: Env)
    ensures IdleChange(s, TockSeat(s, e), e.wall, SavesNow(s, e))
  {
    if s.active.Some? { VacateIdle(IdleTimer(s, e), e); }
  }

  lemma TurnIdle(s: Server, w: World, h: Conn, e: Env)
    ensures IdleChange(s, OnMessage(s, w, h, MTurn, e), e.wall, false)
  {
    if s.active.Some? { VacateIdle(s, e); }
    TakeIdle(s, h, e);
  }

  lemma MessageIdle(s: Server, w: World, h: Conn, m: Msg, e: Env)
    ensures IdleChange(s, OnMessage(s, w, h, m, e), e.wall, m.MTock? && SavesNow(s, e))
  {
    match m
    case MTurn => TurnIdle(s, w, h, e);
    case MTock => TockIdle(s, e);
    case _ =>
  }

  /** A release arms the timer (when autosave is on), a save disarms it, nothing else does. */
  lemma StepIdle(s: System, ev: Event)
    ensures Releases(s, ev) ==> !Saves(s.server, ev) && (ev.Close? || ev.Message?)
    ensures IdleChange(s.server, Step(s, ev).server, if ev.Close? || ev.Message? then ev.e.wall else 0,
                       Saves(s.server, ev))
  {
    Seat.SeatChange(s, ev);
    match ev
    case Close(h, e) => if s.server.active.Some? { VacateIdle(s.server, e); }
    case Message(h, data, e) => MessageIdle(s.server, s.world, h, Classify(data), e);
    case _ =>
  }

  function SaveCount(s: System, evs: seq<Event>): nat {
    if evs == [] then 0 else
    var s1 := Run(s, evs[..|evs| - 1]);
    SaveCount(s, evs[..|evs| - 1]) + if Saves(s1.server, evs[|evs| - 1]) then 1 else 0
  }

  function ReleaseCount(s: System, evs: seq<Event>): nat {
    if evs == [] then 0 else
    var s1 := Run(s, evs[..|evs| - 1]);
    ReleaseCount(s, evs[..|evs| - 1]) + if Releases(s1, evs[|evs| - 1]) then 1 else 0
  }

  /** Wall-clock time of the latest release, if any. */
  function LastRelease(s: System, evs: seq<Event>): Option<int> {
    if evs == [] then None else
    var s1, ev := Run(s, evs[..|evs| - 1]), evs[|evs| - 1];
    if Releases(s1, ev) && (ev.Close? || ev.Message?) then Some(ev.e.wall) else LastRelease(s, evs[..|evs| - 1])
  }

  /** Over any run there are at most as many saves as releases, and an armed timer
      carries the time of the latest release. */
  lemma {:induction false} SavesPerRelease(cfg: Config, w: World, evs: seq<Event>)
    ensures var s0 := InitSystem(cfg, w); var s := Run(s0, evs).server;
      && SaveCount(s0, evs) + (if s.timedOut then 0 else 1) <= ReleaseCount(s0, evs)
      && (!s.timedOut ==> cfg.autosave && LastRelease(s0, evs) == Some(s.itime))
    decreases |evs|
  {
    var s0 := InitSystem(cfg, w);
    if evs != [] {
      var n := |evs| - 1;
      SavesPerRelease(cfg, w, evs[..n]);
      Seat.ConfigFixed(cfg, w, evs[..n]);
      var s1, ev := Run(s0, evs[..n]), evs[n];
      StepIdle(s1, ev);
      assert Run(s0, evs) == Step(s1, ev);
    }
  }

  /** Every save finds the seat empty, more than ten seconds after its latest release. */
  lemma SaveIsLate(cfg: Config, w: World, evs: seq<Event>, ev: Event)
    requires Saves(Run(InitSystem(cfg, w), evs).server, ev)
    ensures var s0 := InitSystem(cfg, w);
      && Run(s0, evs).server.active.None? && LastRelease(s0, evs).Some?
      && ev.e.wall - LastRelease(s0, evs).value > 10
      && SaveCount(s0, evs + [ev]) <= ReleaseCount(s0, evs + [ev])
  {
    SavesPerRelease(cfg, w, evs);
    SavesPerRelease(cfg, w, evs + [ev]);
  }

  /** The latest release that has not been answered by a save, from the history alone. */
  function Unanswered(s: System, evs: seq<Event>): Option<int> {
    if evs == [] then None else
    var s1, ev, due := Run(s, evs[..|evs| - 1]), evs[|evs| - 1], Unanswered(s, evs[..|evs| - 1]);
    if s1.server.cfg.autosave && Releases(s1, ev) && (ev.Close? || ev.Message?) then Some(ev.e.wall)
    else if SaveDue(s1.server, ev, due) then None
    else due
  }

  /** An update request finds the seat empty more than ten seconds after such a release. */
  predicate SaveDue(s: Server, ev: Event, due: Option<int>) {
    && ev.Message? && Classify(ev.data).MTock? && s.active.None?
    && due.Some? && ev.e.wall - due.value > 10
  }

  lemma {:induction false} TimerIsUnanswered(cfg: Config, w: World, evs: seq<Event>)
    ensures var s0 := InitSystem(cfg, w); var s := Run(s0, evs).server;
      Unanswered(s0, evs) == if s.timedOut then None else Some(s.itime)
    decreases |evs|
  {
    var s0 := InitSystem(cfg, w);
    if evs != [] {
      var n := |evs| - 1;
      TimerIsUnanswered(cfg, w, evs[..n]);
      StepIdle(Run(s0, evs[..n]), evs[n]);
    }
  }

  /** Exactly when a save happens, over any run: at the first update request that finds the
      seat empty more than ten seconds after a release nobody has answered yet. */
  lemma SavesIff(cfg: Config, w: World, evs: seq<Event>, ev: Event)
    ensures var s0 := InitSystem(cfg, w);
      Saves(Run(s0, evs).server, ev) <==> SaveDue(Run(s0, evs).server, ev, Unanswered(s0, evs))
  {
    TimerIsUnanswered(cfg, w, evs);
  }

  // ----- queued input -----

  const SPACE_PRESS := KeyEvent(NO_MODS, K_SPACE, 32)

  /** Whose key reaches the game: the seat holder's, if its key is known, and escape only from
      an admin or where it is safe. */
  predicate MayType(s: Server, h: Conn, code: Byte, ch: Byte, e: Env) {
    && s.active == Some(h)
    && (ch != 0 || 1 <= code <= 177 || code == 188 || code == 190)
    && (Lookup(s, h).admin || !(ch == 27 || (ch == 0 && code == 27)) || e.safeToEscape)
  }

  /** The one event such a message is worth. */
  function Press(code: Byte, ch: Byte, js: Byte): KeyEvent {
    KeyEvent(Mods(js / 2 % 2 == 1, js / 4 % 2 == 1, js % 2 == 1), if ch != 0 then ch else MapInputCode(code), ch)
  }

  lemma AcceptsIff(s: Server, h: Conn, m: Msg, e: Env)
    requires m.MKey?
    ensures AcceptsKey(s, h, m, e) <==> MayType(s, h, m.code, m.ch, e)
    ensures KeyEvent(JsMods(m.js), MessageKey(m.code, m.ch), m.ch) == Press(m.code, m.ch, m.js)
  {
    CodesKnown(m.code);
  }

  /** Input authority: a key message changes the queue if and only if it comes from the seat
      holder of that moment with a key that may be typed; then it adds its one event. */
  lemma KeyAuthority(s: Server, w: World, h: Conn, m: Msg, e: Env)
    requires m.MKey?
    ensures OnMessage(s, w, h, m, e).keys != s.keys <==>
      && s.active == Some(h)
      && (m.ch != 0 || 1 <= m.code <= 177 || m.code == 188 || m.code == 190)
      && (Lookup(s, h).admin || !(m.ch == 27 || (m.ch == 0 && m.code == 27)) || e.safeToEscape)
    ensures OnMessage(s, w, h, m, e)
         == s.(keys := s.keys + if MayType(s, h, m.code, m.ch, e) then [Press(m.code, m.ch, m.js)] else [])
  {
    AcceptsIff(s, h, m, e);
    MessageQueue(s, w, h, m, e);
  }

  /** What an event is entitled to queue: the holder's key, or the pause key of a seat change
      in a running game. */
  function Entitled(s: System, ev: Event): seq<KeyEvent> {
    if ev.Message? && Classify(ev.data).MKey? then
      var m := Classify(ev.data);
      if MayType(s.server, ev.h, m.code, m.ch, ev.e) then [Press(m.code, m.ch, m.js)] else []
    else if Step(s, ev).server.active != s.server.active && (ev.Close? || ev.Message?) && !ev.e.paused
    then [SPACE_PRESS]
    else []
  }

  lemma SetActiveQueue(s: Server, o: Option<Conn>, e: Env)
    ensures SetActive(s, o, e).keys == s.keys + (if s.active != o && !e.paused then [SPACE_PRESS] else [])
    ensures SetActive(s, o, e).active == o && SetActive(s, o, e).mice == s.mice
  {
  }

  function SeatPress(s: Server, s': Server, e: Env): seq<KeyEvent> {
    if s'.active != s.active && !e.paused then [SPACE_PRESS] else []
  }

  lemma MessageQueue(s: Server, w: World, h: Conn, m: Msg, e: Env)
    ensures OnMessage(s, w, h, m, e).keys == s.keys +
      if m.MKey? then
        (if AcceptsKey(s, h, m, e) then [KeyEvent(JsMods(m.js), MessageKey(m.code, m.ch), m.ch)] else [])
      else SeatPress(s, OnMessage(s, w, h, m, e), e)
  {
    match m
    case MKey(code, ch, js) => if AcceptsKey(s, h, m, e) { KeyMessageQueuesOne(s.keys, code, ch, js); }
    case MTurn => SetActiveQueue(s, None, e); SetActiveQueue(s, Some(h), e);
    case MTock => SetActiveQueue(IdleTimer(s, e), None, e);
    case _ =>
  }

  /** One step appends exactly what the event is entitled to; a tick takes everything. */
  lemma StepQueue(s: System, ev: Event)
    ensures Step(s, ev).server.keys == if ev.GameTick? then [] else s.server.keys + Entitled(s, ev)
  {
    match ev
    case Close(h, e) => SetActiveQueue(s.server, None, e);
    case Message(h, data, e) =>
      MessageQueue(s.server, s.world, h, Classify(data), e);
      if Classify(data).MKey? { AcceptsIff(s.server, h, Classify(data), e); }
    case _ =>
  }

  function EntitledMice(s: System, ev: Event): seq<MouseEvent> {
    if ev.Message? && Classify(ev.data).MMouse? && s.server.active == Some(ev.h) then [Classify(ev.data).ev] else []
  }

  lemma MessageMice(s: Server, w: World, h: Conn, m: Msg, e: Env)
    ensures OnMessage(s, w, h, m, e).mice == s.mice + if m.MMouse? && s.active == Some(h) then [m.ev] else []
  {
    match m
    case MTurn => SetActiveQueue(s, None, e); SetActiveQueue(s, Some(h), e);
    case MTock => SetActiveQueue(IdleTimer(s, e), None, e);
    case _ =>
  }

  lemma StepMice(s: System, ev: Event)
    ensures Step(s, ev).server.mice == if ev.GameTick? then [] else s.server.mice + EntitledMice(s, ev)
  {
    match ev
    case Close(h, e) => SetActiveQueue(s.server, None, e);
    case Message(h, data, e) => MessageMice(s.server, s.world, h, Classify(data), e);
    case _ =>
  }

  datatype Queues = Queues(keys: seq<KeyEvent>, mice: seq<MouseEvent>)

  function Add(a: Queues, keys: seq<KeyEvent>, mice: seq<MouseEvent>): Queues {
    Queues(a.keys + keys, a.mice + mice)
  }

  function Pushed(s: System, evs: seq<Event>): Queues {
    if evs == [] then Queues([], []) else
    var s1, ev := Run(s, evs[..|evs| - 1]), evs[|evs| - 1];
    Add(Pushed(s, evs[..|evs| - 1]), Entitled(s1, ev), EntitledMice(s1, ev))
  }

  /** What the game thread has taken out of the queues so far. */
  function Drained(s: System, evs: seq<Event>): Queues {
    if evs == [] then Queues([], []) else
    var s1, ev := Run(s, evs[..|evs| - 1]), evs[|evs| - 1];
    var before := Drained(s, evs[..|evs| - 1]);
    if ev.GameTick? then Add(before, s1.server.keys, s1.server.mice) else before
  }

  /** Nothing is lost, duplicated, reordered or queued by anyone but the holder and the
      seat change itself. */
  lemma {:induction false} InputConserved(cfg: Config, w: World, evs: seq<Event>)
    ensures var s0 := InitSystem(cfg, w); var s := Run(s0, evs).server;
      Add(Drained(s0, evs), s.keys, s.mice) == Pushed(s0, evs)
    decreases |evs|
  {
    var s0 := InitSystem(cfg, w);
    if evs != [] {
      var n := |evs| - 1;
      InputConserved(cfg, w, evs[..n]);
      StepQueue(Run(s0, evs[..n]), evs[n]);
      StepMice(Run(s0, evs[..n]), evs[n]);
    }
  }

  /** Who is behind a key that was pushed. */
  predicate Authored(s: System, ev: Event, k: KeyEvent) {
    if ev.Message? && Classify(ev.data).MKey? then
      var m := Classify(ev.data);
      s.server.active == Some(ev.h) && MayType(s.server, ev.h, m.code, m.ch, ev.e) && k == Press(m.code, m.ch, m.js)
    else k == SPACE_PRESS && Step(s, ev).server.active != s.server.active
  }

  /** Every key that was ever pushed comes from a message of the holder of that moment, or
      from a change of the seat: event number i of the run. */
  lemma {:induction false} KeysHaveAuthors(s0: System, evs: seq<Event>, k: nat) returns (i: nat)
    requires k < |Pushed(s0, evs).keys|
    ensures i < |evs| && Authored(Run(s0, evs[..i]), evs[i], Pushed(s0, evs).keys[k])
    decreases |evs|
  {
    var n := |evs| - 1;
    var before := Pushed(s0, evs[..n]).keys;
    if k < |before| {
      i := KeysHaveAuthors(s0, evs[..n], k);
      assert evs[..n][..i] == evs[..i] && evs[..n][i] == evs[i];
    } else {
      i := n;
    }
  }

  // ----- camera moves of the driver -----

  function WrapPos(p: Pos): Pos { Pos(Wrap32(p.x), Wrap32(p.y), Wrap32(p.z)) }

  /** The move a seat holder's message asks for. */
  function Asked(s: Server, ev: Event): Pos {
    if ev.Message? && Classify(ev.data).MCam? && Drives(s, ev.h) then Classify(ev.data).d else ORIGIN
  }

  lemma MessagePending(s: Server, w: World, h: Conn, m: Msg, e: Env)
    ensures OnMessage(s, w, h, m, e).pending
         == if m.MCam? && Drives(s, h) then Accumulate(s.pending, m.d) else s.pending
  {
    match m
    case MTurn => Seat.SetActiveSets(s, None, e); Seat.SetActiveSets(s, Some(h), e);
    case MTock => Seat.SetActiveSets(IdleTimer(s, e), None, e);
    case _ =>
  }

  lemma StepPending(s: System, ev: Event)
    ensures Step(s, ev).server.pending
         == if ev.GameTick? then ORIGIN
            else if ev.Message? && Classify(ev.data).MCam? && Drives(s.server, ev.h)
            then Accumulate(s.server.pending, Classify(ev.data).d)
            else s.server.pending
  {
    match ev
    case Message(h, data, e) => MessagePending(s.server, s.world, h, Classify(data), e);
    case Close(h, e) => Seat.SetActiveSets(s.server, None, e);
    case _ =>
  }

  function MovesAsked(s: System, evs: seq<Event>): Pos {
    if evs == [] then ORIGIN else
    Shift(MovesAsked(s, evs[..|evs| - 1]), Asked(Run(s, evs[..|evs| - 1]).server, evs[|evs| - 1]))
  }

  function MovesDrained(s: System, evs: seq<Event>): Pos {
    if evs == [] then ORIGIN else
    var s1 := Run(s, evs[..|evs| - 1]).server;
    Shift(MovesDrained(s, evs[..|evs| - 1]), if evs[|evs| - 1].GameTick? then s1.pending else ORIGIN)
  }

  /** One axis of one accumulated move. */
  lemma AxisStep(drained: int, pending: int, asked: int, d: int)
    requires Wrap32(drained + pending) == Wrap32(asked)
    ensures Wrap32(drained + Wrap32(pending + d)) == Wrap32(asked + d)
  {
    Wrap32Add(pending + d, drained);
    Wrap32Add(asked, d);
    Wrap32Add(drained + pending, d);
  }

  lemma MoveStep(drained: Pos, pending: Pos, asked: Pos, d: Pos)
    requires WrapPos(Shift(drained, pending)) == WrapPos(asked)
    ensures WrapPos(Shift(drained, Accumulate(pending, d))) == WrapPos(Shift(asked, d))
  {
    AxisStep(drained.x, pending.x, asked.x, d.x);
    AxisStep(drained.y, pending.y, asked.y, d.y);
    AxisStep(drained.z, pending.z, asked.z, d.z);
  }

  lemma ShiftOrigin(p: Pos)
    ensures Shift(p, ORIGIN) == p
  {
  }

  lemma WrapStep(s: System, ev: Event, drained: Pos, asked: Pos)
    requires WrapPos(Shift(drained, s.server.pending)) == WrapPos(asked)
    ensures WrapPos(Shift(Shift(drained, if ev.GameTick? then s.server.pending else ORIGIN),
                          Step(s, ev).server.pending))
         == WrapPos(Shift(asked, Asked(s.server, ev)))
  {
    StepPending(s, ev);
    ShiftOrigin(drained);
    ShiftOrigin(asked);
    ShiftOrigin(Shift(drained, s.server.pending));
    if ev.Message? && Classify(ev.data).MCam? && Drives(s.server, ev.h) {
      MoveStep(drained, s.server.pending, asked, Classify(ev.data).d);
    }
  }

  /** What is pending is what was asked and not yet drained, modulo the accumulator's
      32 bits. */
  lemma {:induction false} MovesConserved(cfg: Config, w: World, evs: seq<Event>)
    ensures var s0 := InitSystem(cfg, w);
      WrapPos(Shift(MovesDrained(s0, evs), Run(s0, evs).server.pending)) == WrapPos(MovesAsked(s0, evs))
    decreases |evs|
  {
    var s0 := InitSystem(cfg, w);
    if evs == [] {
      ShiftOrigin(ORIGIN);
    } else {
      var n := |evs| - 1;
      MovesConserved(cfg, w, evs[..n]);
      WrapStep(Run(s0, evs[..n]), evs[n], MovesDrained(s0, evs[..n]), MovesAsked(s0, evs[..n]));
    }
  }

  predicate Fits(p: Pos) { InInt32(p.x) && InInt32(p.y) && InInt32(p.z) }

  /** No accumulation of the run leaves the 32-bit range. */
  ghost predicate InRange(s: System, evs: seq<Event>) {
    evs == [] ||
    (var s1 := Run(s, evs[..|evs| - 1]).server;
     InRange(s, evs[..|evs| - 1]) && Fits(Shift(s1.pending, Asked(s1, evs[|evs| - 1]))))
  }

  lemma AccumulateExactly(p: Pos, d: Pos)
    requires Fits(Shift(p, d))
    ensures Accumulate(p, d) == Shift(p, d)
  {
    Wrap32Id(p.x + d.x);
    Wrap32Id(p.y + d.y);
    Wrap32Id(p.z + d.z);
  }

  lemma ExactStep(s: System, ev: Event, drained: Pos)
    requires Fits(Shift(s.server.pending, Asked(s.server, ev)))
    ensures Shift(Shift(drained, if ev.GameTick? then s.server.pending else ORIGIN), Step(s, ev).server.pending)
         == Shift(Shift(drained, s.server.pending), Asked(s.server, ev))
  {
    StepPending(s, ev);
    AccumulateExactly(s.server.pending, Asked(s.server, ev));
  }

  /** While no partial sum leaves the 32-bit range it is exactly that. */
  lemma {:induction false} MovesConservedExactly(cfg: Config, w: World, evs: seq<Event>)
    requires InRange(InitSystem(cfg, w), evs)
    ensures var s0 := InitSystem(cfg, w);
      Shift(MovesDrained(s0, evs), Run(s0, evs).server.pending) == MovesAsked(s0, evs)
    decreases |evs|
  {
    var s0 := InitSystem(cfg, w);
    if evs == [] {
      ShiftOrigin(ORIGIN);
    } else {
      var n := |evs| - 1;
      MovesConservedExactly(cfg, w, evs[..n]);
      ExactStep(Run(s0, evs[..n]), evs[n], MovesDrained(s0, evs[..n]));
    }
  }
}
