/** What incremental sending costs: every record sent is accounted for, and a screen that
    does not change costs nothing. */
module Traffic {
  import opened Bytes
  import opened Screen
  import opened Model
  import opened Sync
  import SyncLaws

  function CleanSet(m: Mod, n: nat): set<int> {
    set t | 0 <= t < n && t < CELLS && m[t] != 0
  }

  function DirtySet(m: Mod, n: nat): set<int> {
    set t | 0 <= t < n && t < CELLS && m[t] == 0
  }

  /** The dirty tiles a tock has walked past on its way to column x of row y. */
  function PassedDirty(c: Client, d: Dims, x: int, y: int): set<int>
    requires d.h > 0
  {
    set t | 0 <= t < d.Total() && c.mod[t] == 0 && Before(t / d.h, t % d.h, x, y)
  }

  lemma PassedStep(c: Client, d: Dims, x: int, y: int)
    requires d.Valid() && d.Has(x, y) && 0 <= At(d, x, y) < d.Total()
    ensures PassedDirty(c, d, x + 1, y)
         == PassedDirty(c, d, x, y) + (if c.mod[At(d, x, y)] == 0 then {At(d, x, y)} else {})
    ensures At(d, x, y) !in PassedDirty(c, d, x, y)
  {
    var t0 := At(d, x, y);
    AtSurjective(d, t0);
    AtInjective(d, t0 / d.h, t0 % d.h, x, y);
    forall t | 0 <= t < d.Total()
      ensures t == t0 <==> t / d.h == x && t % d.h == y
    {
      AtSurjective(d, t);
    }
  }

  lemma PassedRow(c: Client, d: Dims, y: int)
    requires d.Valid() && 0 < y <= d.h
    ensures PassedDirty(c, d, 0, y) == PassedDirty(c, d, d.w, y - 1)
  {
    forall t | 0 <= t < d.Total()
      ensures Before(t / d.h, t % d.h, 0, y) <==> Before(t / d.h, t % d.h, d.w, y - 1)
    {
      AtSurjective(d, t);
    }
  }

  /** Row by row on the wire, column by column in memory: the counts agree. */
  lemma {:induction false} DirtyBeforeCount(c: Client, d: Dims, x: int, y: int)
    requires d.Valid() && 0 <= x <= d.w && 0 <= y <= d.h && (y == d.h ==> x == 0)
    ensures |DirtyBefore(c, d, x, y)| == |PassedDirty(c, d, x, y)|
    decreases y, x
  {
    if x > 0 {
      AtInRange(d, x - 1, y);
      PassedStep(c, d, x - 1, y);
      DirtyBeforeCount(c, d, x - 1, y);
    } else if y > 0 {
      PassedRow(c, d, y);
      DirtyBeforeCount(c, d, d.w, y - 1);
    } else {
      forall t | 0 <= t < d.Total() ensures !Before(t / d.h, t % d.h, 0, 0) {
        AtSurjective(d, t);
      }
      assert PassedDirty(c, d, 0, 0) == {};
    }
  }

  lemma DirtyCount(c: Client, d: Dims)
    requires d.Valid()
    ensures |Dirty(c, d)| == |DirtySet(c.mod, d.Total())|
  {
    DirtyBeforeCount(c, d, 0, d.h);
    forall t | 0 <= t < d.Total() ensures Before(t / d.h, t % d.h, 0, d.h) {
      AtSurjective(d, t);
    }
    assert PassedDirty(c, d, 0, d.h) == DirtySet(c.mod, d.Total());
  }

  // ----- one step -----

  predicate AnswersTo(ev: Event, h: Conn) {
    ev.Message? && ev.h == h && Classify(ev.data).MTock?
  }

  /** The number of tile records this event sends to h. */
  function Records(s: System, ev: Event, h: Conn): nat {
    if AnswersTo(ev, h) then |Dirty(Lookup(TockSeat(s.server, ev.e), h), s.world.dims)| else 0
  }

  /** The tiles this event takes from clean to dirty. */
  function Dirtied(s: System, ev: Event, h: Conn): set<int>
    requires h in s.server.clients && h in Step(s, ev).server.clients
  {
    var n := s.world.dims.Total();
    CleanSet(s.server.clients[h].mod, n) - CleanSet(Step(s, ev).server.clients[h].mod, n)
  }

  /** h keeps its connection and the screen its size. */
  predicate Steady(s: System, ev: Event, h: Conn) {
    && h in s.server.clients && s.world.dims.Valid()
    && match ev
       case Open(k, _, _, _, _, _) => k != h
       case Close(k, _) => k != h
       case Game(w) => w.dims == s.world.dims
       case _ => true
  }

  lemma SteadyStays(s: System, ev: Event, h: Conn)
    requires Steady(s, ev, h)
    ensures h in Step(s, ev).server.clients && Step(s, ev).world.dims == s.world.dims
  {
    if ev.Message? { MessageKeys(s.server, s.world, ev.h, Classify(ev.data), ev.e); }
    if ev.Close? { SetActiveKeys(s.server, None, ev.e); }
  }

  /** Only answering h's own request makes a tile of h clean. */
  lemma OthersOnlyDirty(s: System, ev: Event, h: Conn, t: int)
    requires Steady(s, ev, h) && !AnswersTo(ev, h) && 0 <= t < s.world.dims.Total()
    requires h in Step(s, ev).server.clients
    ensures Step(s, ev).server.clients[h].mod[t] != 0 ==> s.server.clients[h].mod[t] != 0
  {
    match ev
    case Message(k, data, e) =>
      if Classify(data).MTock? {
        TockSeatFrame(s.server, e, h);
        TockStep(s, h, k, e, data);
      } else {
        MessageFrame(s.server, s.world, k, Classify(data), e, h);
      }
    case GameTick(f) => SyncLaws.TickEffect(s.server, s.world, f, h, t);
    case Close(k, e) => VacateFrame(s.server, e, h);
    case _ =>
  }

  lemma AnswerBalance(m: Mod, n: nat)
    requires n <= CELLS
    ensures |CleanSet(MarkSent(m, n), n)| == |CleanSet(m, n)| + |DirtySet(m, n)|
    ensures CleanSet(m, n) - CleanSet(MarkSent(m, n), n) == {}
  {
    assert CleanSet(MarkSent(m, n), n) == CleanSet(m, n) + DirtySet(m, n);
    assert CleanSet(m, n) !! DirtySet(m, n);
  }

  lemma DirtyingBalance(m: Mod, m': Mod, n: nat)
    requires n <= CELLS && forall t :: 0 <= t < n && m'[t] != 0 ==> m[t] != 0
    ensures |CleanSet(m', n)| + |CleanSet(m, n) - CleanSet(m', n)| == |CleanSet(m, n)|
  {
    assert CleanSet(m, n) == CleanSet(m', n) + (CleanSet(m, n) - CleanSet(m', n));
  }

  /** Clean tiles after = clean tiles before + records sent - tiles dirtied. */
  lemma StepBalance(s: System, ev: Event, h: Conn)
    requires Steady(s, ev, h) && h in Step(s, ev).server.clients
    ensures var n := s.world.dims.Total();
      |CleanSet(Step(s, ev).server.clients[h].mod, n)| + |Dirtied(s, ev, h)|
      == |CleanSet(s.server.clients[h].mod, n)| + Records(s, ev, h)
  {
    var n := s.world.dims.Total();
    var m, m' := s.server.clients[h].mod, Step(s, ev).server.clients[h].mod;
    if AnswersTo(ev, h) {
      TockSeatFrame(s.server, ev.e, h);
      TockStep(s, h, h, ev.e, ev.data);
      DirtyCount(TockSeat(s.server, ev.e).clients[h], s.world.dims);
      AnswerBalance(m, n);
    } else {
      forall t | 0 <= t < n && m'[t] != 0 ensures m[t] != 0 {
        OthersOnlyDirty(s, ev, h, t);
      }
      DirtyingBalance(m, m', n);
    }
  }

  // ----- runs -----

  ghost predicate SteadyRun(s: System, evs: seq<Event>, h: Conn) {
    evs == [] || (SteadyRun(s, evs[..|evs| - 1], h) && Steady(Run(s, evs[..|evs| - 1]), evs[|evs| - 1], h))
  }

  function RecordsSent(s: System, evs: seq<Event>, h: Conn): nat {
    if evs == [] then 0 else
    RecordsSent(s, evs[..|evs| - 1], h) + Records(Run(s, evs[..|evs| - 1]), evs[|evs| - 1], h)
  }

  ghost function TilesDirtied(s: System, evs: seq<Event>, h: Conn): nat {
    if evs == [] then 0 else
    var s1, ev := Run(s, evs[..|evs| - 1]), evs[|evs| - 1];
    TilesDirtied(s, evs[..|evs| - 1], h)
    + if h in s1.server.clients && h in Step(s1, ev).server.clients then |Dirtied(s1, ev, h)| else 0
  }

  /** Conservation over any run: records sent and tiles dirtied account for every change
      in the number of clean tiles. From a fresh connection the first term is zero. */
  lemma {:induction false} TrafficConserved(s: System, evs: seq<Event>, h: Conn)
    requires SteadyRun(s, evs, h) && h in s.server.clients && s.world.dims.Valid()
    ensures h in Run(s, evs).server.clients && Run(s, evs).world.dims == s.world.dims
    ensures var n := s.world.dims.Total();
      |CleanSet(Run(s, evs).server.clients[h].mod, n)| + TilesDirtied(s, evs, h)
      == |CleanSet(s.server.clients[h].mod, n)| + RecordsSent(s, evs, h)
    decreases |evs|
  {
    if evs != [] {
      var n := |evs| - 1;
      TrafficConserved(s, evs[..n], h);
      SteadyStays(Run(s, evs[..n]), evs[n], h);
      StepBalance(Run(s, evs[..n]), evs[n], h);
    }
  }

  // ----- silence -----

  /** Nothing in this event changes or clears what h sees. */
  ghost predicate Quiet(s: System, ev: Event, h: Conn) {
    && Steady(s, ev, h)
    && match ev
       case Message(k, data, _) =>
         var m := Classify(data);
         k == h ==> !m.MRefresh? && !(m.MCam? && s.server.active != Some(h)) && !(m.MTurn? && s.server.active.None?)
       case GameTick(f) =>
         !SyncLaws.TickClears(s.server, s.world, h)
         && forall t :: 0 <= t < s.world.dims.Total() ==>
              SyncLaws.NextFrame(s.server, s.world, f, h)[t] == SyncLaws.NextRef(s.server, h)[t]
       case _ => true
  }

  ghost predicate QuietRun(s: System, evs: seq<Event>, h: Conn) {
    evs == [] || (QuietRun(s, evs[..|evs| - 1], h) && Quiet(Run(s, evs[..|evs| - 1]), evs[|evs| - 1], h))
  }

  lemma QuietMessage(s: System, k: Conn, data: seq<Byte>, e: Env, h: Conn, t: int)
    requires Quiet(s, Message(k, data, e), h) && 0 <= t < s.world.dims.Total() && s.server.clients[h].mod[t] != 0
    requires h in Step(s, Message(k, data, e)).server.clients
    ensures Step(s, Message(k, data, e)).server.clients[h].mod[t] != 0
  {
    if Classify(data).MTock? {
      TockSeatFrame(s.server, e, h);
      TockStep(s, h, k, e, data);
    } else if Classify(data).MTurn? {
      VacateFrame(s.server, e, h);
      if s.server.active.None? { TakeFrame(s.server, k, e, h); }
    }
  }

  lemma QuietKeepsClean(s: System, ev: Event, h: Conn, t: int)
    requires Quiet(s, ev, h) && 0 <= t < s.world.dims.Total() && s.server.clients[h].mod[t] != 0
    requires h in Step(s, ev).server.clients
    ensures Step(s, ev).server.clients[h].mod[t] != 0
  {
    match ev
    case Message(k, data, e) => QuietMessage(s, k, data, e, h, t);
    case GameTick(f) => SyncLaws.TickEffect(s.server, s.world, f, h, t);
    case Close(k, e) => VacateFrame(s.server, e, h);
    case _ =>
  }

  ghost predicate AllClean(m: Mod, n: nat) {
    forall t :: 0 <= t < n && t < CELLS ==> m[t] != 0
  }

  /** From an all-clean client, no quiet run sends a single tile record. */
  lemma {:induction false} SilenceIsFree(s: System, evs: seq<Event>, h: Conn)
    requires QuietRun(s, evs, h) && h in s.server.clients && s.world.dims.Valid()
    requires AllClean(s.server.clients[h].mod, s.world.dims.Total())
    ensures h in Run(s, evs).server.clients && Run(s, evs).world.dims == s.world.dims
    ensures AllClean(Run(s, evs).server.clients[h].mod, s.world.dims.Total())
    ensures RecordsSent(s, evs, h) == 0
    decreases |evs|
  {
    if evs != [] {
      var n := |evs| - 1;
      var s1, ev := Run(s, evs[..n]), evs[n];
      SilenceIsFree(s, evs[..n], h);
      SteadyStays(s1, ev, h);
      forall t | 0 <= t < s.world.dims.Total() ensures Step(s1, ev).server.clients[h].mod[t] != 0 {
        QuietKeepsClean(s1, ev, h, t);
      }
      if AnswersTo(ev, h) {
        TockSeatFrame(s1.server, ev.e, h);
        DirtyCount(TockSeat(s1.server, ev.e).clients[h], s1.world.dims);
        assert DirtySet(s1.server.clients[h].mod, s.world.dims.Total()) == {};
      }
    }
  }
}
