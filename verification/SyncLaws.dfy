/** When the sync invariant can be relied on, and exactly when it cannot. */
module SyncLaws {
  import opened Bytes
  import opened Screen
  import opened Wire
  import opened Model
  import opened Sync

  // ----- one tick, one tile -----

  /** The buffer the next tick compares this client's frame against. */
  function NextRef(s: Server, h: Conn): Buffer
    requires h in s.clients
  {
    if s.clients[h].hasOwnCam || Drives(s, h) then s.clients[h].ownPrev else s.scPrev
  }

  /** The frame the next tick gives this client. */
  function NextFrame(s: Server, w: World, f: Frames, h: Conn): Buffer
    requires h in s.clients
  {
    var c := Promote(s, w, h, s.clients[h]);
    if c.hasOwnCam && c.cam != f.fed then f.extra(h) else f.shared
  }

  /** The two wholesale clears of a tick: a drained camera move, a resize of the shared view. */
  predicate TickClears(s: Server, w: World, h: Conn)
    requires h in s.clients
  {
    (Drives(s, h) && s.pending != ORIGIN) || (!s.clients[h].hasOwnCam && !Drives(s, h) && w.dims != s.cap)
  }

  /** A tick dirties a tile exactly where the frame differs from the reference, or clears all. */
  lemma TickEffect(s: Server, w: World, f: Frames, h: Conn, t: int)
    requires h in s.clients && w.dims.Valid() && 0 <= t < w.dims.Total()
    ensures var c' := Tick(s, w, f).clients[h];
      && c'.ownSc[t] == NextFrame(s, w, f, h)[t]
      && c'.mod[t] == (if TickClears(s, w, h) || NextFrame(s, w, f, h)[t] != NextRef(s, h)[t] then 0
                       else s.clients[h].mod[t])
  {
    var c := Promote(s, w, h, s.clients[h]);
    var sc := Overwrite(s.sc, f.shared, w.dims.Total());
    if c.hasOwnCam {
      PassTile(c, if c.cam == f.fed then sc else f.extra(h), w.dims, t);
    } else {
      CaptureTile(c, sc, s.scPrev, w.dims, s.cap, t);
    }
  }

  // ----- settling -----

  lemma PassAnchors(c: Client, drives: bool, frame: Buffer, scPrev: Buffer, d: Dims)
    requires d.Valid() && c.hasOwnCam
    ensures AllAnchored(PassClient(c, frame, d), drives, scPrev, d)
  {
    forall t | 0 <= t < d.Total()
      ensures Anchored(PassClient(c, frame, d), drives, scPrev, t)
    {
      PassTile(c, frame, d, t);
    }
  }

  lemma CaptureAnchors(c: Client, sc: Buffer, scPrev: Buffer, scPrev': Buffer, d: Dims, cap: Dims)
    requires d.Valid() && !c.hasOwnCam
    requires forall t :: 0 <= t < d.Total() ==> scPrev'[t] == sc[t]
    ensures AllAnchored(CaptureClient(c, sc, scPrev, d, cap), false, scPrev', d)
  {
    forall t | 0 <= t < d.Total()
      ensures Anchored(CaptureClient(c, sc, scPrev, d, cap), false, scPrev', t)
    {
      CaptureTile(c, sc, scPrev, d, cap, t);
    }
  }

  /** One tick at a sendable screen size settles every client, whatever happened before. */
  lemma TickSettles(s: System, f: Frames, h: Conn)
    requires h in s.server.clients && s.world.dims.Sendable()
    ensures Settled(Step(s, GameTick(f)), h)
  {
    var sv, w := s.server, s.world;
    var c, sc := Promote(sv, w, h, sv.clients[h]), Overwrite(sv.sc, f.shared, w.dims.Total());
    var scPrev' := Overwrite(sv.scPrev, sc, w.dims.Total());
    if c.hasOwnCam {
      PassAnchors(c, sv.active == Some(h), if c.cam == f.fed then sc else f.extra(h), scPrev', w.dims);
    } else {
      CaptureAnchors(c, sc, sv.scPrev, scPrev', w.dims, sv.cap);
    }
  }

  /** The only events that unsettle a client before the next tick: connecting, a resize,
      the first camera move of a spectator, and taking the seat without a camera. */
  predicate Unsettles(s: System, ev: Event, h: Conn) {
    match ev
    case Open(k, _, _, _, _, _) => k == h
    case Game(w) => w.dims != s.world.dims
    case Message(k, data, _) =>
      k == h && h in s.server.clients && !s.server.clients[h].hasOwnCam
      && ((Classify(data).MCam? && s.server.active != Some(h)) || (Classify(data).MTurn? && s.server.active.None?))
    case _ => false
  }

  /** Messages keep the buffers an anchored client is compared by. */
  lemma MessageAnchors(s: Server, w: World, k: Conn, m: Msg, e: Env, h: Conn)
    requires h in s.clients && h in OnMessage(s, w, k, m, e).clients
    requires k == h && !s.clients[h].hasOwnCam ==>
      !(m.MCam? && s.active != Some(h)) && !(m.MTurn? && s.active.None?)
    ensures var s' := OnMessage(s, w, k, m, e);
      var c, c' := s.clients[h], s'.clients[h];
      && s'.scPrev == s.scPrev && s'.cap == s.cap
      && c'.ownSc == c.ownSc && c'.ownPrev == c.ownPrev && c'.hasOwnCam == c.hasOwnCam
      && (s'.active == Some(h) ==> s.active == Some(h) || c.hasOwnCam)
  {
    match m
    case MTurn =>
      if s.active == Some(k) { VacateFrame(s, e, h); } else if s.active.None? { TakeFrame(s, k, e, h); }
    case MTock => TockSeatFrame(s, e, h);
    case _ =>
  }

  lemma SameAnchors(c: Client, c': Client, drives: bool, drives': bool, scPrev: Buffer, d: Dims)
    requires AllAnchored(c, drives, scPrev, d)
    requires c'.ownSc == c.ownSc && c'.ownPrev == c.ownPrev && c'.hasOwnCam == c.hasOwnCam
    requires drives' ==> drives || c.hasOwnCam
    ensures AllAnchored(c', drives', scPrev, d)
  {
    forall t | 0 <= t < d.Total() ensures Anchored(c', drives', scPrev, t) {
      assert Anchored(c, drives, scPrev, t);
    }
  }

  /** Settled clients stay settled through every other event. */
  lemma StaysSettled(s: System, ev: Event, h: Conn)
    requires Settled(s, h) && !Unsettles(s, ev, h) && h in Step(s, ev).server.clients
    ensures Settled(Step(s, ev), h)
  {
    var s' := Step(s, ev);
    var c, c', d := s.server.clients[h], s'.server.clients[h], s.server.cap;
    match ev
    case Open(k, _, _, _, _, _) =>
      assert c' == c && s'.server.active == s.server.active;
    case Game(w) =>
    case GameTick(f) => TickSettles(s, f, h);
    case Close(k, e) =>
      VacateFrame(s.server, e, h);
      SameAnchors(c, c', s.server.active == Some(h), s'.server.active == Some(h), s.server.scPrev, d);
    case Message(k, data, e) =>
      MessageKeys(s.server, s.world, k, Classify(data), e);
      MessageAnchors(s.server, s.world, k, Classify(data), e, h);
      SameAnchors(c, c', s.server.active == Some(h), s'.server.active == Some(h), s.server.scPrev, d);
  }

  /** The flag a caller could keep: set by the unsettling events, cleared by a tick. */
  ghost predicate Flagged(s: System, evs: seq<Event>, h: Conn) {
    if evs == [] then true else
    var s1, ev := Run(s, evs[..|evs| - 1]), evs[|evs| - 1];
    if ev.GameTick? && s1.world.dims.Sendable() then false
    else Flagged(s, evs[..|evs| - 1], h) || Unsettles(s1, ev, h)
  }

  ghost predicate Guarded(s: System, evs: seq<Event>, h: Conn) {
    evs == [] ||
    (var s1, ev := Run(s, evs[..|evs| - 1]), evs[|evs| - 1];
     Guarded(s, evs[..|evs| - 1], h)
     && match ev
        case Open(k, _, _, _, _, _) => k == h ==> h !in s1.server.clients
        case Message(k, data, _) =>
          k == h && Classify(data).MTock? ==>
            h in s1.server.clients && !Flagged(s, evs[..|evs| - 1], h) && Reaches(s1, h)
        case GameTick(_) => h in s1.server.clients ==> TickLegal(s1, h)
        case _ => true)
  }

  lemma FlagStep(s: System, ev: Event, h: Conn, flagged: bool)
    requires !flagged && h in s.server.clients ==> Settled(s, h)
    requires (ev.GameTick? && s.world.dims.Sendable()) || (!flagged && !Unsettles(s, ev, h))
    ensures h in Step(s, ev).server.clients ==> Settled(Step(s, ev), h)
  {
    var s' := Step(s, ev);
    if h in s'.server.clients {
      if h !in s.server.clients {
        if !ev.Open? { AbsentStays(s, ev, h); }
      } else if ev.GameTick? && s.world.dims.Sendable() {
        TickSettles(s, ev.f, h);
      } else {
        StaysSettled(s, ev, h);
      }
    }
  }

  /** Answering updates only while the flag is down is enough for sync safety, from start-up
      or from any moment at which all of this client's tiles are due. */
  lemma {:induction false} GuardedSafety(s0: System, evs: seq<Event>, h: Conn)
    requires h in s0.server.clients ==> s0.server.clients[h].mod == AllDirty()
    requires Guarded(s0, evs, h)
    ensures var s := Run(s0, evs);
      && LegalRun(s0, evs, h) && Coherent(s, h)
      && (!Flagged(s0, evs, h) && h in s.server.clients ==> Settled(s, h))
    decreases |evs|
  {
    if evs != [] {
      var n := |evs| - 1;
      GuardedSafety(s0, evs[..n], h);
      assert LegalFor(Run(s0, evs[..n]), evs[n], h);
      if !Flagged(s0, evs, h) {
        FlagStep(Run(s0, evs[..n]), evs[n], h, Flagged(s0, evs[..n], h));
      }
    }
    SyncSafety(s0, evs, h);
  }

  // ----- exactly when an answered update stays right -----

  ghost predicate ExactNow(s: System, h: Conn)
    requires h in s.server.clients
  {
    Exact(s.server.clients[h], BrowserOf(s, h), s.server.cap)
  }

  ghost predicate ExactAfterTick(s: System, f: Frames, h: Conn)
    requires h in s.server.clients
  {
    ExactNow(Step(s, GameTick(f)), h)
  }

  ghost predicate MatchesRef(s: Server, d: Dims, h: Conn)
    requires h in s.clients
  {
    forall t :: 0 <= t < d.Total() ==> Enc(NextRef(s, h)[t]) == Enc(s.clients[h].ownSc[t])
  }

  /** Each tile marked clean is on h's canvas as the next tick will compare it. */
  ghost predicate CleanShowsRef(s: System, h: Conn)
    requires h in s.server.clients
  {
    forall t :: 0 <= t < s.world.dims.Total() && s.server.clients[h].mod[t] != 0 ==>
      View(BrowserOf(s, h), s.world.dims, t) == Some(Enc(NextRef(s.server, h)[t]))
  }

  function AlwaysFrame(b: Buffer, at: Pos): Frames {
    Frames(at, b, (_: Conn) => b)
  }

  lemma TickStaysRight(s: System, f: Frames, h: Conn)
    requires h in s.server.clients && s.world.dims.Valid()
    requires TickClears(s.server, s.world, h) || CleanShowsRef(s, h)
    ensures ExactAfterTick(s, f, h)
  {
    var c', b, d := Tick(s.server, s.world, f).clients[h], BrowserOf(s, h), s.world.dims;
    forall t | 0 <= t < d.Total() && c'.mod[t] != 0
      ensures View(b, d, t) == Some(Enc(c'.ownSc[t]))
    {
      TickEffect(s.server, s.world, f, h, t);
    }
  }

  lemma TickGoesWrong(s: System, h: Conn, t: int)
    requires h in s.server.clients && s.world.dims.Valid()
    requires !TickClears(s.server, s.world, h) && 0 <= t < s.world.dims.Total() && s.server.clients[h].mod[t] != 0
    requires View(BrowserOf(s, h), s.world.dims, t) != Some(Enc(NextRef(s.server, h)[t]))
    ensures !ExactAfterTick(s, AlwaysFrame(NextRef(s.server, h), ORIGIN), h)
  {
    var f := AlwaysFrame(NextRef(s.server, h), ORIGIN);
    TickEffect(s.server, s.world, f, h, t);
    assert Tick(s.server, s.world, f).clients[h].mod[t] != 0;
  }

  /** Any client in any state is right after every possible tick exactly when the tick is
      going to clear everything, or what is clean is on its canvas as it will be compared.
      The screen may have been resized since the last tick. */
  lemma TickRightIff(s: System, h: Conn)
    requires h in s.server.clients && s.world.dims.Valid()
    ensures (forall f :: ExactAfterTick(s, f, h)) <==> TickClears(s.server, s.world, h) || CleanShowsRef(s, h)
  {
    if TickClears(s.server, s.world, h) || CleanShowsRef(s, h) {
      forall f ensures ExactAfterTick(s, f, h) {
        TickStaysRight(s, f, h);
      }
    } else {
      var t :| 0 <= t < s.world.dims.Total() && s.server.clients[h].mod[t] != 0
            && View(BrowserOf(s, h), s.world.dims, t) != Some(Enc(NextRef(s.server, h)[t]));
      TickGoesWrong(s, h, t);
    }
  }

  /** A resize seen by a client with its own camera is survived, whatever is rendered,
      exactly when what is clean in the new size is on its canvas as last compared. */
  lemma ResizeRightIff(s: System, h: Conn)
    requires h in s.server.clients && s.world.dims.Valid() && s.world.dims != s.server.cap
    ensures (forall f :: ExactAfterTick(s, f, h)) <==>
            !Promote(s.server, s.world, h, s.server.clients[h]).hasOwnCam
            || CleanShowsPrev(Promote(s.server, s.world, h, s.server.clients[h]), BrowserOf(s, h), s.world.dims)
  {
    TickRightIff(s, h);
  }

  // ----- exactly what an update delivers -----

  /** What an update puts on h's canvas for one tile: what was due if the holder's name
      decodes, otherwise what was there, if the canvas already had the size. */
  function Delivered(s: System, h: Conn, t: int): Option<Cell>
    requires h in s.server.clients && s.world.dims.h > 0 && 0 <= t < CELLS
  {
    var c := s.server.clients[h];
    if c.mod[t] == 0 && Decodes(Holder(s.server).nick) then Some(Enc(c.ownSc[t]))
    else View(BrowserOf(s, h), s.world.dims, t)
  }

  /** What an answered update leaves: everything clean, the delivered tiles shown, and the
      same references as before it was sent. */
  lemma TockOutcome(s: System, h: Conn, data: seq<Byte>, e: Env)
    requires h in s.server.clients && Classify(data).MTock? && s.world.dims.Sendable()
    ensures var s1, seat := Step(s, Message(h, data, e)), TockSeat(s.server, e);
      && h in seat.clients && h in s1.server.clients && s1.world == s.world && s1.server.cap == s.server.cap
      && (forall t :: 0 <= t < s.world.dims.Total() ==>
           s1.server.clients[h].mod[t] != 0 && View(BrowserOf(s1, h), s.world.dims, t) == Delivered(s, h, t))
      && TickClears(s1.server, s1.world, h) == TickClears(seat, s.world, h)
      && NextRef(s1.server, h) == NextRef(seat, h) && s1.server.clients[h].ownSc == s.server.clients[h].ownSc
  {
    TockSeatFrame(s.server, e, h);
    TockStep(s, h, h, e, data);
    HeaderIsValid(s.server, s.world, h, e);
    var seat := TockSeat(s.server, e);
    forall t | 0 <= t < s.world.dims.Total()
      ensures View(BrowserOf(Step(s, Message(h, data, e)), h), s.world.dims, t) == Delivered(s, h, t)
    {
      ReceiveView(BrowserOf(s, h), TockHeader(s.server, s.world, h, e), seat.clients[h], s.world.dims, t);
    }
  }

  /** h's canvas has the present size and carries its whole frame. */
  ghost predicate ShowsFrame(s: System, h: Conn)
    requires h in s.server.clients
  {
    forall t :: 0 <= t < s.world.dims.Total() ==>
      View(BrowserOf(s, h), s.world.dims, t) == Some(Enc(s.server.clients[h].ownSc[t]))
  }

  /** From any state at all, settled or not, resized or not: an update leaves the whole frame
      on the canvas if and only if what was clean was on it at the present size, and the
      holder's name decodes or what was due was there already. */
  lemma TockExactIff(s: System, h: Conn, data: seq<Byte>, e: Env)
    requires h in s.server.clients && Classify(data).MTock? && s.world.dims.Sendable()
    ensures h in Step(s, Message(h, data, e)).server.clients
    ensures ShowsFrame(Step(s, Message(h, data, e)), h) <==>
      Exact(s.server.clients[h], BrowserOf(s, h), s.world.dims) && Reaches(s, h)
    ensures s.world.dims == s.server.cap ==>
      (ExactNow(Step(s, Message(h, data, e)), h) <==> ShowsFrame(Step(s, Message(h, data, e)), h))
  {
    TockOutcome(s, h, data, e);
    var s1, c := Step(s, Message(h, data, e)), s.server.clients[h];
    assert ShowsFrame(s1, h) <==> forall t :: 0 <= t < s.world.dims.Total() ==>
      Delivered(s, h, t) == Some(Enc(c.ownSc[t]));
    DeliveredIff(s, h);
  }

  lemma DeliveredIff(s: System, h: Conn)
    requires h in s.server.clients && s.world.dims.Sendable()
    ensures (forall t :: 0 <= t < s.world.dims.Total() ==>
              Delivered(s, h, t) == Some(Enc(s.server.clients[h].ownSc[t])))
            <==> Exact(s.server.clients[h], BrowserOf(s, h), s.world.dims) && Reaches(s, h)
  {
    var c, b, d := s.server.clients[h], BrowserOf(s, h), s.world.dims;
    forall t | 0 <= t < d.Total()
      ensures c.mod[t] != 0 ==> Delivered(s, h, t) == View(b, d, t)
      ensures c.mod[t] == 0 && !Decodes(Holder(s.server).nick) ==> Delivered(s, h, t) == View(b, d, t)
    {
    }
  }

  /** The refinement: whatever came before, an update answered with the flag down leaves a
      canvas that is what sending the full frame would have drawn, if and only if the
      holder's name decodes or what was due was there already. */
  lemma FullFrameAfterTock(s0: System, evs: seq<Event>, h: Conn, data: seq<Byte>, e: Env)
    requires h in s0.server.clients ==> s0.server.clients[h].mod == AllDirty()
    requires Guarded(s0, evs, h) && !Flagged(s0, evs, h) && Classify(data).MTock?
    requires h in Run(s0, evs).server.clients
    ensures var s := Run(s0, evs);
      var s1 := Step(s, Message(h, data, e));
      && s.server.cap == s.world.dims && s.server.cap.Sendable() && h in s1.server.clients
      && s1.server.clients[h].ownSc == s.server.clients[h].ownSc && s1.world == s.world
      && (ShowsFrame(s1, h) <==> Reaches(s, h))
  {
    GuardedSafety(s0, evs, h);
    TockOutcome(Run(s0, evs), h, data, e);
    TockExactIff(Run(s0, evs), h, data, e);
  }

  /** tock itself: sending marks everything clean, so every later tick shows this client
      the right tiles if and only if what was delivered encodes like the reference, or the
      next tick is going to clear anyway. Of a client exact before and reached by the
      update that asks that its frame was anchored. Answering between a resize and its tick
      is covered: the tick clears for whoever shares the viewport. */
  lemma TockRightIff(s: System, h: Conn, data: seq<Byte>, e: Env)
    requires h in s.server.clients && Classify(data).MTock? && s.world.dims.Sendable()
    ensures h in Step(s, Message(h, data, e)).server.clients && h in TockSeat(s.server, e).clients
    ensures var s1, seat := Step(s, Message(h, data, e)), TockSeat(s.server, e);
      (forall f :: ExactAfterTick(s1, f, h)) <==>
        TickClears(seat, s.world, h)
        || forall t :: 0 <= t < s.world.dims.Total() ==> Delivered(s, h, t) == Some(Enc(NextRef(seat, h)[t]))
    ensures var s1, seat := Step(s, Message(h, data, e)), TockSeat(s.server, e);
      Exact(s.server.clients[h], BrowserOf(s, h), s.world.dims) && Reaches(s, h) ==>
        ((forall f :: ExactAfterTick(s1, f, h)) <==>
          TickClears(seat, s.world, h) || MatchesRef(seat, s.world.dims, h))
  {
    TockOutcome(s, h, data, e);
    TockSeatFrame(s.server, e, h);
    var s1, seat := Step(s, Message(h, data, e)), TockSeat(s.server, e);
    TickRightIff(s1, h);
    assert CleanShowsRef(s1, h) <==>
      forall t :: 0 <= t < s.world.dims.Total() ==> Delivered(s, h, t) == Some(Enc(NextRef(seat, h)[t]));
    if Exact(s.server.clients[h], BrowserOf(s, h), s.world.dims) && Reaches(s, h) {
      DeliveredIff(s, h);
    }
  }

  /** A client on the shared viewport survives an update answered between a resize and its
      tick. */
  lemma SharedSurvivesResize(s: System, h: Conn, data: seq<Byte>, e: Env)
    requires h in s.server.clients && Classify(data).MTock? && s.world.dims.Sendable() && s.world.dims != s.server.cap
    requires !s.server.clients[h].hasOwnCam && s.server.active != Some(h)
    ensures h in Step(s, Message(h, data, e)).server.clients
    ensures forall f :: ExactAfterTick(Step(s, Message(h, data, e)), f, h)
  {
    TockRightIff(s, h, data, e);
    TockSeatFrame(s.server, e, h);
  }
}
