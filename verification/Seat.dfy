/** The seat, its timers and the input it guards, over every run. */
module Seat {
  import Screen
  import opened Bytes
  import opened Model

  // ----- who holds the seat -----

  /** The holder is nobody or a registered client whose ghost cursor is hidden. */
  ghost predicate SeatOk(s: Server) {
    s.active.Some? ==> s.active.value in s.clients && !s.clients[s.active.value].cursorActive
  }

  /** Messages come from open connections, and an opening connection is new. */
  predicate Registered(s: Server, ev: Event) {
    match ev
    case Open(h, _, _, _, _, _) => h !in s.clients
    case Message(h, _, _) => h in s.clients
    case _ => true
  }

  lemma VacateOk(s: Server, e: Env)
    ensures SeatOk(SetActive(s, None, e)) && SetActive(s, None, e).active.None?
  {
  }

  /** Taking the seat keeps the invariant exactly for registered connections. */
  lemma TakeOkIff(s: Server, h: Conn, e: Env)
    requires s.active.None?
    ensures SeatOk(SetActive(s, Some(h), e)) <==> h in s.clients
  {
  }

  /** A turn request from anyone at all keeps the invariant exactly when the seat is
      taken or the connection is registered. */
  lemma TurnOkIff(s: Server, w: World, h: Conn, e: Env)
    requires SeatOk(s)
    ensures SeatOk(OnMessage(s, w, h, MTurn, e)) <==> s.active.Some? || h in s.clients
  {
    VacateOk(s, e);
    if s.active.None? { TakeOkIff(s, h, e); }
  }

  lemma TockSeatOk(s: Server, e: Env)
    requires SeatOk(s)
    ensures SeatOk(TockSeat(s, e))
  {
    VacateOk(IdleTimer(s, e), e);
  }

  lemma MessageOk(s: Server, w: World, h: Conn, m: Msg, e: Env)
    requires SeatOk(s) && h in s.clients
    ensures SeatOk(OnMessage(s, w, h, m, e))
  {
    match m
    case MTurn => TurnOkIff(s, w, h, e);
    case MTock => TockSeatOk(s, e);
    case _ =>
  }

  lemma StepOk(s: System, ev: Event)
    requires SeatOk(s.server) && Registered(s.server, ev)
    ensures SeatOk(Step(s, ev).server)
  {
    match ev
    case Message(h, data, e) => MessageOk(s.server, s.world, h, Classify(data), e);
    case Close(h, e) => VacateOk(s.server, e);
    case GameTick(f) =>
      if s.server.active.Some? {
        var h := s.server.active.value;
        assert Tick(s.server, s.world, f).clients[h] == TickClient(s.server, s.world, f, h, s.server.clients[h]);
      }
    case _ =>
  }

  ghost predicate RegisteredRun(s: System, evs: seq<Event>) {
    evs == [] || (RegisteredRun(s, evs[..|evs| - 1]) && Registered(Run(s, evs[..|evs| - 1]).server, evs[|evs| - 1]))
  }

  lemma {:induction false} SeatSafety(cfg: Config, w: World, evs: seq<Event>)
    requires RegisteredRun(InitSystem(cfg, w), evs)
    ensures SeatOk(Run(InitSystem(cfg, w), evs).server)
    decreases |evs|
  {
    if evs != [] {
      SeatSafety(cfg, w, evs[..|evs| - 1]);
      StepOk(Run(InitSystem(cfg, w), evs[..|evs| - 1]), evs[|evs| - 1]);
    }
  }

  // ----- how the seat changes hands -----

  predicate AsksTurn(ev: Event, h: Conn) { ev.Message? && ev.h == h && Classify(ev.data).MTurn? }

  predicate TurnEnds(s: Server, ev: Event) {
    ev.Message? && Classify(ev.data).MTock? && TimeUp(s, ev.e)
  }

  lemma TimeUpAfterIdle(s: Server, e: Env)
    ensures TimeUp(IdleTimer(s, e), e) == TimeUp(s, e) && TimeLeft(IdleTimer(s, e), e) == TimeLeft(s, e)
  {
  }

  lemma SetActiveSets(s: Server, o: Option<Conn>, e: Env)
    ensures SetActive(s, o, e).active == o && SetActive(s, o, e).pending == s.pending
  {
  }

  lemma MessageSeat(s: Server, w: World, h: Conn, m: Msg, e: Env)
    ensures OnMessage(s, w, h, m, e).active ==
      if m.MTurn? then (if s.active == Some(h) then None else if s.active.None? then Some(h) else s.active)
      else if m.MTock? && TimeUp(s, e) then None
      else s.active
  {
    match m
    case MTurn => SetActiveSets(s, None, e); SetActiveSets(s, Some(h), e);
    case MTock => TimeUpAfterIdle(s, e); SetActiveSets(IdleTimer(s, e), None, e);
    case _ =>
  }

  /** The seat is given up by its holder's request, its closing or the timer, and taken
      only by the taker's own request while empty; never handed over in one step. */
  lemma SeatChange(s: System, ev: Event)
    ensures var a, a' := s.server.active, Step(s, ev).server.active;
      a' == match a
            case Some(h) =>
              if AsksTurn(ev, h) || (ev.Close? && ev.h == h && h in s.server.clients) || TurnEnds(s.server, ev)
              then None else Some(h)
            case None =>
              if ev.Message? && Classify(ev.data).MTurn? then Some(ev.h) else None
  {
    match ev
    case Message(h, data, e) => MessageSeat(s.server, s.world, h, Classify(data), e);
    case Close(h, e) => SetActiveSets(s.server, None, e);
    case _ =>
  }

  // ----- the turn timer -----

  /** Both clocks as the plugin sees them: non-negative 32-bit seconds or ticks. */
  predicate Ticking(e: Env, last: int) {
    0 <= last <= e.round < 0x8000_0000
  }

  ghost predicate StampedBy(s: Server, now: int) {
    0 <= s.nobody.atime <= now && forall h :: h in s.clients ==> 0 <= s.clients[h].atime <= now
  }

  lemma PlayedIsHeld(s: Server, e: Env, last: int)
    requires s.cfg.Valid() && s.cfg.turnTime > 0 && StampedBy(s, last) && Ticking(e, last)
    ensures 0 <= e.round - Holder(s).atime == Played(s, e)
    ensures Played(s, e) < s.cfg.turnTime ==>
            Wrap32(s.cfg.turnTime - Played(s, e)) == s.cfg.turnTime - Played(s, e)
  {
    Wrap32Id(e.round - Holder(s).atime);
    Wrap32Id(s.cfg.turnTime - Played(s, e));
  }

  lemma TimeLeftIs(s: Server, e: Env, last: int)
    requires s.cfg.Valid() && s.cfg.turnTime > 0 && StampedBy(s, last) && Ticking(e, last) && s.active.Some?
    ensures var held := e.round - Holder(s).atime;
      && held >= 0 && (TimeUp(s, e) <==> |s.clients| > 1 && held >= s.cfg.turnTime)
      && TimeLeft(s, e) == if |s.clients| > 1 && held < s.cfg.turnTime then s.cfg.turnTime - held else -1
  {
    PlayedIsHeld(s, e, last);
  }

  /** An update request ends the turn exactly when its time is up, and reports what is left. */
  lemma TimerExact(s: System, h: Conn, data: seq<Byte>, e: Env, last: int)
    requires Classify(data).MTock? && s.server.cfg.Valid() && s.server.cfg.turnTime > 0
    requires StampedBy(s.server, last) && Ticking(e, last) && s.server.active.Some?
    ensures var s' := Step(s, Message(h, data, e)).server;
      var held := e.round - Holder(s.server).atime;
      && (s'.active.None? <==> |s.server.clients| > 1 && held >= s.server.cfg.turnTime)
      && (s'.active.Some? && |s.server.clients| > 1 ==> 0 <= held < s.server.cfg.turnTime)
      && TimeLeft(s.server, e) == (if |s.server.clients| > 1 && held < s.server.cfg.turnTime
                                   then s.server.cfg.turnTime - held else -1)
      && (TimeLeft(s.server, e) == -1 || 1 <= TimeLeft(s.server, e) <= s.server.cfg.turnTime)
  {
    TimeLeftIs(s.server, e, last);
    TockSeatIs(s, h, data, e);
  }

  lemma TockSeatIs(s: System, h: Conn, data: seq<Byte>, e: Env)
    requires Classify(data).MTock?
    ensures Step(s, Message(h, data, e)).server.active == if TimeUp(s.server, e) then None else s.server.active
  {
    SeatChange(s, Message(h, data, e));
  }

  /** The reported time is in range exactly when the clock has not run backwards (the
      in-game clock does so once a year), or by wrapping to -1. */
  lemma TimeLeftInRangeIff(s: Server, e: Env)
    requires s.cfg.Valid() && s.cfg.turnTime > 0
    ensures TimeLeft(s, e) == -1 || 1 <= TimeLeft(s, e) <= s.cfg.turnTime <==>
      !(Timed(s) && Played(s, e) < 0) || s.cfg.turnTime - Played(s, e) == 0xFFFF_FFFF
  {
  }

  function ClockOf(ev: Event, last: int): int {
    if ev.Open? || ev.Close? || ev.Message? then ev.e.round else last
  }

  lemma PutStamps(s: Server, h: Conn, c: Client, last: int)
    requires StampedBy(s, last) && 0 <= c.atime <= last
    ensures StampedBy(Put(s, h, c), last)
  {
  }

  lemma HideStamps(s: Server, o: Option<Conn>, last: int)
    requires StampedBy(s, last)
    ensures StampedBy(HideCursor(s, o), last)
  {
  }

  lemma SetActiveStamps(s: Server, o: Option<Conn>, e: Env, last: int)
    requires StampedBy(s, last) && Ticking(e, last)
    ensures StampedBy(SetActive(s, o, e), e.round)
  {
    HideStamps(s, s.active, last);
    var s0 := HideCursor(s, s.active).(active := o);
    HideStamps(s0, o, last);
    var s1 := HideCursor(s0, o);
    assert StampedBy(s1, e.round);
    if o.Some? {
      PutStamps(s1, o.value, Lookup(s1, o.value).(atime := e.round, mod := Screen.AllDirty()), e.round);
    }
  }

  lemma MessageStamps(s: Server, w: World, h: Conn, m: Msg, e: Env, last: int)
    requires StampedBy(s, last) && Ticking(e, last)
    ensures StampedBy(OnMessage(s, w, h, m, e), e.round)
  {
    match m
    case MCursor(tx, ty) =>
      var c := Lookup(s, h);
      PutStamps(s, h, c.(cursorX := Base(c, w).x + tx, cursorY := Base(c, w).y + ty, cursorActive := true), last);
    case MRefresh => PutStamps(s, h, Lookup(s, h).(mod := Screen.AllDirty()), last);
    case MCam(d) => PutStamps(s, h, PanSpectator(Lookup(s, h), w, d), last);
    case MTurn => SetActiveStamps(s, None, e, last); SetActiveStamps(s, Some(h), e, last);
    case MTock =>
      SetActiveStamps(IdleTimer(s, e), None, e, last);
      var s1 := TockSeat(s, e);
      assert StampedBy(s1, e.round);
      PutStamps(s1, h, Lookup(s1, h).(mod := Screen.MarkSent(Lookup(s1, h).mod, w.dims.Total())), e.round);
    case _ =>
  }

  lemma TickStamps(s: Server, w: World, f: Frames, last: int)
    requires StampedBy(s, last)
    ensures StampedBy(Tick(s, w, f), last)
  {
    var s' := Tick(s, w, f);
    forall h | h in s'.clients ensures 0 <= s'.clients[h].atime <= last {
      assert s'.clients[h].atime == s.clients[h].atime;
    }
  }

  /** Stamps never run ahead of a monotone clock. */
  lemma StepStamps(s: System, ev: Event, last: int)
    requires StampedBy(s.server, last)
    requires ev.Open? || ev.Close? || ev.Message? ==> Ticking(ev.e, last)
    ensures StampedBy(Step(s, ev).server, ClockOf(ev, last))
  {
    match ev
    case Message(h, data, e) => MessageStamps(s.server, s.world, h, Classify(data), e, last);
    case Close(h, e) => SetActiveStamps(s.server, None, e, last);
    case GameTick(f) => TickStamps(s.server, s.world, f, last);
    case _ =>
  }

  ghost function ClockAfter(evs: seq<Event>): int {
    if evs == [] then 0 else ClockOf(evs[|evs| - 1], ClockAfter(evs[..|evs| - 1]))
  }

  ghost predicate ClockedRun(evs: seq<Event>) {
    evs == [] ||
    (var ev := evs[|evs| - 1];
     ClockedRun(evs[..|evs| - 1])
     && (ev.Open? || ev.Close? || ev.Message? ==> Ticking(ev.e, ClockAfter(evs[..|evs| - 1]))))
  }

  lemma {:induction false} RunStamps(cfg: Config, w: World, evs: seq<Event>)
    requires ClockedRun(evs)
    ensures StampedBy(Run(InitSystem(cfg, w), evs).server, ClockAfter(evs))
    decreases |evs|
  {
    if evs != [] {
      RunStamps(cfg, w, evs[..|evs| - 1]);
      StepStamps(Run(InitSystem(cfg, w), evs[..|evs| - 1]), evs[|evs| - 1], ClockAfter(evs[..|evs| - 1]));
    }
  }

  lemma SetActiveConfig(s: Server, o: Option<Conn>, e: Env)
    ensures SetActive(s, o, e).cfg == s.cfg
  {
  }

  lemma MessageConfig(s: Server, w: World, h: Conn, m: Msg, e: Env)
    ensures OnMessage(s, w, h, m, e).cfg == s.cfg
  {
    match m
    case MTurn => SetActiveConfig(s, None, e); SetActiveConfig(s, Some(h), e);
    case MTock => SetActiveConfig(IdleTimer(s, e), None, e);
    case _ =>
  }

  lemma StepConfig(s: System, ev: Event)
    ensures Step(s, ev).server.cfg == s.server.cfg
  {
    match ev
    case Message(h, data, e) => MessageConfig(s.server, s.world, h, Classify(data), e);
    case Close(h, e) => SetActiveConfig(s.server, None, e);
    case _ =>
  }

  lemma {:induction false} ConfigFixed(cfg: Config, w: World, evs: seq<Event>)
    ensures Run(InitSystem(cfg, w), evs).server.cfg == cfg
    decreases |evs|
  {
    if evs != [] {
      ConfigFixed(cfg, w, evs[..|evs| - 1]);
      StepConfig(Run(InitSystem(cfg, w), evs[..|evs| - 1]), evs[|evs| - 1]);
    }
  }

  // ----- time in the seat -----

  /** When the present holder took the seat, by the plugin's clock and the run's history alone. */
  function TakenAt(s: System, evs: seq<Event>): Option<int> {
    if evs == [] then None else
    var s1, ev := Run(s, evs[..|evs| - 1]), evs[|evs| - 1];
    var before, after := s1.server.active, Step(s1, ev).server.active;
    if after.None? then None
    else if before == after then TakenAt(s, evs[..|evs| - 1])
    else if ev.Message? then Some(ev.e.round) else None
  }

  /** An event leaves the holder's stamp alone, unless it is the one that seats them. */
  predicate StampFollows(s: Server, s': Server, round: int) {
    s'.active.Some? ==> Holder(s').atime == if s'.active == s.active then Holder(s).atime else round
  }

  lemma VacateStamp(s: Server, e: Env, round: int)
    ensures StampFollows(s, SetActive(s, None, e), round)
  {
  }

  lemma TakeStamp(s: Server, h: Conn, e: Env)
    requires s.active.None? && h in s.clients
    ensures StampFollows(s, SetActive(s, Some(h), e), e.round)
  {
  }

  lemma TockStamp(s: Server, w: World, h: Conn, e: Env)
    requires SeatOk(s)
    ensures StampFollows(s, Tock(s, w, h, e), e.round)
  {
    VacateStamp(IdleTimer(s, e), e, e.round);
    SetActiveSets(IdleTimer(s, e), None, e);
  }

  lemma MessageStamp(s: Server, w: World, h: Conn, m: Msg, e: Env)
    requires SeatOk(s) && h in s.clients
    ensures StampFollows(s, OnMessage(s, w, h, m, e), e.round)
  {
    match m
    case MTurn => VacateStamp(s, e, e.round); if s.active.None? { TakeStamp(s, h, e); }
    case MTock => TockStamp(s, w, h, e);
    case _ =>
  }

  lemma TickStamp(s: Server, w: World, f: Frames, round: int)
    requires SeatOk(s)
    ensures StampFollows(s, Tick(s, w, f), round)
  {
    if s.active.Some? {
      var h := s.active.value;
      assert Tick(s, w, f).clients[h] == TickClient(s, w, f, h, s.clients[h]);
    }
  }

  lemma StepStamp(s: System, ev: Event)
    requires SeatOk(s.server) && Registered(s.server, ev)
    ensures StampFollows(s.server, Step(s, ev).server, if ev.Message? then ev.e.round else 0)
    ensures Step(s, ev).server.active.Some? && Step(s, ev).server.active != s.server.active ==> ev.Message?
  {
    SeatChange(s, ev);
    match ev
    case Message(h, data, e) => MessageStamp(s.server, s.world, h, Classify(data), e);
    case Close(h, e) => VacateStamp(s.server, e, 0);
    case GameTick(f) => TickStamp(s.server, s.world, f, 0);
    case _ =>
  }

  /** The stamp of whoever holds the seat is the time they took it. */
  lemma {:induction false} StampIsTaking(cfg: Config, w: World, evs: seq<Event>)
    requires RegisteredRun(InitSystem(cfg, w), evs)
    ensures var s0 := InitSystem(cfg, w); var s := Run(s0, evs).server;
      s.active.Some? ==> TakenAt(s0, evs) == Some(Holder(s).atime)
    decreases |evs|
  {
    if evs != [] {
      var n := |evs| - 1;
      StampIsTaking(cfg, w, evs[..n]);
      SeatSafety(cfg, w, evs[..n]);
      StepStamp(Run(InitSystem(cfg, w), evs[..n]), evs[n]);
    }
  }

  /** Turn timer over runs: under a monotone clock, whoever asks, an update ends the turn if
      and only if someone else is connected and the holder took the seat a full turn ago or
      longer; and what it reports is what is left of the turn. */
  lemma TimerSafety(cfg: Config, w: World, evs: seq<Event>, h: Conn, data: seq<Byte>, e: Env)
    requires cfg.Valid() && cfg.turnTime > 0 && Classify(data).MTock?
    requires RegisteredRun(InitSystem(cfg, w), evs) && ClockedRun(evs) && Ticking(e, ClockAfter(evs))
    requires Run(InitSystem(cfg, w), evs).server.active.Some?
    ensures var s0 := InitSystem(cfg, w); var s := Run(s0, evs);
      && TakenAt(s0, evs).Some?
      && var held := e.round - TakenAt(s0, evs).value;
      && held >= 0
      && (Step(s, Message(h, data, e)).server.active.None? <==> |s.server.clients| > 1 && held >= cfg.turnTime)
      && TimeLeft(s.server, e) == (if |s.server.clients| > 1 && held < cfg.turnTime then cfg.turnTime - held else -1)
      && (TimeLeft(s.server, e) == -1 || 1 <= TimeLeft(s.server, e) <= cfg.turnTime)
  {
    var s := Run(InitSystem(cfg, w), evs);
    StampIsTaking(cfg, w, evs);
    RunStamps(cfg, w, evs);
    ConfigFixed(cfg, w, evs);
    TimeLeftIs(s.server, e, ClockAfter(evs));
    TimerExact(s, h, data, e, ClockAfter(evs));
  }
}
