/** From dirty bytes to pixels: what is painted on a browser's canvas over whole runs, while
    the graphics mode and the loaded atlas change. */
module Picture {
  import Screen
  import opened Bytes
  import opened Wire
  import opened Model
  import Sync
  import SyncLaws
  import opened Canvas

  type Spot = (int, int)

  /** A decoded record and the atlas it was painted under. */
  datatype Stroke = Stroke(cell: Screen.Cell, atlas: Atlas)

  type Strokes = map<Spot, Stroke>

  /** The canvas on which each record is painted completely under its own atlas. */
  function Look(m: Strokes): Layers {
    map p | p in m :: Full(m[p].cell, m[p].atlas)
  }

  function Cells(m: Strokes): map<Spot, Screen.Cell> {
    map p | p in m :: m[p].cell
  }

  function Brush(m: Strokes, ps: seq<Patch>, a: Atlas): Strokes {
    if ps == [] then m else
    var r := ps[|ps| - 1];
    Brush(m, ps[..|ps| - 1], a)[PlaceOf(r) := Stroke(r.cell, a)]
  }

  /** The atlas an update is painted with: none in ASCII mode. */
  function InUse(graphics: bool, loaded: Atlas): Atlas {
    if graphics then loaded else None
  }

  predicate Resizes(b: Browser, u: Update) {
    u.dims.w > 0 && u.dims.h > 0 && u.dims != b.dims
  }

  /** onMessage on the canvas itself: clear it if it must be resized, then two passes. */
  function PaintUpdate(m: Layers, b: Browser, data: seq<Byte>, loaded: Atlas): Layers {
    if !Readable(data) then m else
    var u := DecodeUpdate(data);
    TwoPass(if Resizes(b, u) then map[] else m, u.patches, InUse(u.graphics, loaded))
  }

  /** The same, remembering the strokes. */
  function BrushUpdate(m: Strokes, b: Browser, data: seq<Byte>, loaded: Atlas): Strokes {
    if !Readable(data) then m else
    var u := DecodeUpdate(data);
    Brush(if Resizes(b, u) then map[] else m, u.patches, InUse(u.graphics, loaded))
  }

  lemma LookPut(m: Strokes, p: Spot, c: Screen.Cell, a: Atlas)
    ensures Look(m[p := Stroke(c, a)]) == Look(m)[p := Full(c, a)]
    ensures Cells(m[p := Stroke(c, a)]) == Cells(m)[p := c]
  {
  }

  lemma {:induction false} BrushLooks(m: Strokes, ps: seq<Patch>, a: Atlas)
    ensures OnePass(Look(m), ps, a) == Look(Brush(m, ps, a))
    ensures Cells(Brush(m, ps, a)) == Paint(Cells(m), ps)
  {
    if ps != [] {
      var r := ps[|ps| - 1];
      BrushLooks(m, ps[..|ps| - 1], a);
      LookPut(Brush(m, ps[..|ps| - 1], a), PlaceOf(r), r.cell, a);
    }
  }

  lemma DirtyPaintsOnce(m: Layers, c: Client, d: Screen.Dims, a: Atlas)
    ensures TwoPass(m, Patches(Dirty(c, d)), a) == OnePass(m, Patches(Dirty(c, d)), a)
  {
    if d.Valid() { TockPaintsOnce(m, c, d, a); }
  }

  /** Painting an update in two passes keeps the canvas the complete painting of what was
      decoded, each record under the atlas in use when it came. */
  lemma UpdateLooks(m: Strokes, b: Browser, hd: Header, c: Client, loaded: Atlas)
    requires hd.Valid() && Cells(m) == b.cells
    ensures var data := EncodeUpdate(hd, Dirty(c, hd.dims));
      && PaintUpdate(Look(m), b, data, loaded) == Look(BrushUpdate(m, b, data, loaded))
      && Cells(BrushUpdate(m, b, data, loaded)) == Receive(b, data).cells
  {
    var rs := Dirty(c, hd.dims);
    DecodedIs(hd, rs);
    var u := DecodeUpdate(EncodeUpdate(hd, rs));
    var m1: Strokes := if Resizes(b, u) then map[] else m;
    assert Look(map[]) == map[] && Cells(map[]) == map[];
    DirtyPaintsOnce(Look(m1), c, hd.dims, InUse(u.graphics, loaded));
    BrushLooks(m1, u.patches, InUse(u.graphics, loaded));
  }

  // ----- runs -----

  predicate Asks(ev: Event, h: Conn) {
    ev.Message? && ev.h == h && Classify(ev.data).MTock?
  }

  /** What a browser that connects has painted already, under whatever atlases. */
  function Brought(b: Browser, had: Spot -> Atlas): Strokes {
    map p | p in b.cells :: Stroke(b.cells[p], had(p))
  }

  /** The canvas of h after a run, painted only by the updates it received; loaded is the
      atlas in the browser at each event. */
  function Painted(s0: System, evs: seq<Event>, h: Conn, loaded: nat -> Atlas, had: Spot -> Atlas): Layers {
    if evs == [] then Look(Brought(BrowserOf(s0, h), had)) else
    var n := |evs| - 1;
    var s, m, ev := Run(s0, evs[..n]), Painted(s0, evs[..n], h, loaded, had), evs[n];
    if ev.Open? && ev.h == h then Look(Brought(ev.browser, had))
    else if Asks(ev, h) then PaintUpdate(m, BrowserOf(s, h), TockPacket(s.server, s.world, h, ev.e), loaded(n))
    else m
  }

  /** The strokes that canvas consists of. */
  function Stroked(s0: System, evs: seq<Event>, h: Conn, loaded: nat -> Atlas, had: Spot -> Atlas): Strokes {
    if evs == [] then Brought(BrowserOf(s0, h), had) else
    var n := |evs| - 1;
    var s, m, ev := Run(s0, evs[..n]), Stroked(s0, evs[..n], h, loaded, had), evs[n];
    if ev.Open? && ev.h == h then Brought(ev.browser, had)
    else if Asks(ev, h) then BrushUpdate(m, BrowserOf(s, h), TockPacket(s.server, s.world, h, ev.e), loaded(n))
    else m
  }

  lemma BroughtCells(b: Browser, had: Spot -> Atlas)
    ensures Cells(Brought(b, had)) == b.cells
  {
  }

  lemma TockLooks(m: Strokes, s: System, h: Conn, data: seq<Byte>, e: Env, loaded: Atlas)
    requires Classify(data).MTock? && Cells(m) == BrowserOf(s, h).cells
    ensures var p := TockPacket(s.server, s.world, h, e);
      && PaintUpdate(Look(m), BrowserOf(s, h), p, loaded) == Look(BrushUpdate(m, BrowserOf(s, h), p, loaded))
      && Cells(BrushUpdate(m, BrowserOf(s, h), p, loaded)) == BrowserOf(Step(s, Message(h, data, e)), h).cells
  {
    Sync.HeaderIsValid(s.server, s.world, h, e);
    UpdateLooks(m, BrowserOf(s, h), TockHeader(s.server, s.world, h, e), Lookup(TockSeat(s.server, e), h), loaded);
  }

  /** Over any run the canvas is its strokes painted completely, and they are the records
      the browser decoded. */
  lemma {:induction false} PaintedIsStroked(s0: System, evs: seq<Event>, h: Conn, loaded: nat -> Atlas,
                                            had: Spot -> Atlas)
    ensures Painted(s0, evs, h, loaded, had) == Look(Stroked(s0, evs, h, loaded, had))
    ensures Cells(Stroked(s0, evs, h, loaded, had)) == BrowserOf(Run(s0, evs), h).cells
    decreases |evs|
  {
    if evs == [] {
      BroughtCells(BrowserOf(s0, h), had);
    } else {
      var n := |evs| - 1;
      PaintedIsStroked(s0, evs[..n], h, loaded, had);
      var s, ev := Run(s0, evs[..n]), evs[n];
      if ev.Open? && ev.h == h {
        BroughtCells(ev.browser, had);
      } else if Asks(ev, h) {
        TockLooks(Stroked(s0, evs[..n], h, loaded, had), s, h, ev.data, ev.e, loaded(n));
      }
    }
  }

  // ----- old strokes under a new atlas -----

  /** A record looks the same under two atlases. */
  predicate SameLook(c: Screen.Cell, a: Atlas, b: Atlas) {
    UsesSprites(c, a) == UsesSprites(c, b)
    && (UsesSprites(c, a) ==> HasLower(c, a) == HasLower(c, b) && HasUpper(c, a) == HasUpper(c, b))
  }

  lemma SameLookIff(c: Screen.Cell, a: Atlas, b: Atlas)
    ensures Full(c, a) == Full(c, b) <==> SameLook(c, a, b)
  {
    var x, y := Full(c, a), Full(c, b);
    if UsesSprites(c, a) != UsesSprites(c, b) {
      assert x[1] != y[1];
    } else if UsesSprites(c, a) {
      assert |x| == 1 + (if HasLower(c, a) then 1 else 0) + (if HasUpper(c, a) then 1 else 0);
      assert |y| == 1 + (if HasLower(c, b) then 1 else 0) + (if HasUpper(c, b) then 1 else 0);
      if |x| == |y| == 2 {
        assert x[1] == Sprite(if HasLower(c, a) then c.lower else c.tex);
        assert y[1] == Sprite(if HasLower(c, b) then c.lower else c.tex);
      }
    }
  }

  // ----- after an answered update -----

  /** A run with one more request from h, and the state before it. */
  ghost predicate Asked(evs: seq<Event>, more: seq<Event>, h: Conn, data: seq<Byte>, e: Env) {
    Classify(data).MTock? && more == evs + [Message(h, data, e)]
  }

  /** One spot after an update: painted anew where a tile was due, the name decoding. */
  lemma {:induction false} BrushAt(m: Strokes, c: Client, d: Screen.Dims, x: int, y: int, t: int, p: Spot, a: Atlas)
    requires d.Valid() && 0 <= x <= d.w && 0 <= y <= d.h && (y == d.h ==> x == 0)
    requires d.Has(p.0, p.1) && t == Screen.At(d, p.0, p.1) && 0 <= t < Screen.CELLS
    ensures var m' := Brush(m, Patches(DirtyBefore(c, d, x, y)), a);
      if Screen.Before(p.0, p.1, x, y) && c.mod[t] == 0 then p in m' && m'[p] == Stroke(Screen.Enc(c.ownSc[t]), a)
      else (p in m' <==> p in m) && (p in m ==> m'[p] == m[p])
    decreases y, x
  {
    if x > 0 {
      BrushAt(m, c, d, x - 1, y, t, p, a);
      Screen.AtInRange(d, x - 1, y);
      BrushRecAt(m, DirtyBefore(c, d, x - 1, y), c, d, x - 1, y, p, a);
    } else if y > 0 {
      BrushAt(m, c, d, d.w, y - 1, t, p, a);
    }
  }

  /** What one visited tile does to a spot. */
  lemma BrushRecAt(m: Strokes, rs: seq<Rec>, c: Client, d: Screen.Dims, x: int, y: int, p: Spot, a: Atlas)
    requires d.Valid() && d.Has(x, y) && 0 <= Screen.At(d, x, y) < Screen.CELLS
    ensures var m0, m' := Brush(m, Patches(rs), a), Brush(m, Patches(rs + RecAt(c, d, x, y)), a);
      if p == (x, y) && c.mod[Screen.At(d, x, y)] == 0
      then p in m' && m'[p] == Stroke(Screen.Enc(c.ownSc[Screen.At(d, x, y)]), a)
      else (p in m' <==> p in m0) && (p in m0 ==> m'[p] == m0[p])
  {
    var r := RecAt(c, d, x, y);
    if r == [] {
      assert rs + r == rs;
    } else {
      assert Patches(rs + r)[..|rs|] == Patches(rs);
      assert Patches(rs + r)[|rs|] == Patch(x, y, Screen.Enc(c.ownSc[Screen.At(d, x, y)]));
    }
  }

  lemma BrushUpdateAt(m: Strokes, b: Browser, hd: Header, c: Client, t: int, p: Spot, loaded: Atlas)
    requires hd.Valid() && hd.dims.Sendable() && 0 <= t < hd.dims.Total() && p == Sync.Place(hd.dims, t)
    ensures var m' := BrushUpdate(m, b, EncodeUpdate(hd, Dirty(c, hd.dims)), loaded);
      if c.mod[t] == 0 && Decodes(hd.nick)
      then p in m' && m'[p] == Stroke(Screen.Enc(c.ownSc[t]), InUse(hd.graphics, loaded))
      else b.dims == hd.dims ==> (p in m' <==> p in m) && (p in m ==> m'[p] == m[p])
  {
    UpdateRoundTrip(hd, Dirty(c, hd.dims));
    Screen.AtSurjective(hd.dims, t);
    var u := DecodeUpdate(EncodeUpdate(hd, Dirty(c, hd.dims)));
    BrushAt(if Resizes(b, u) then map[] else m, c, hd.dims, 0, hd.dims.h, t, p, InUse(u.graphics, loaded));
  }

  lemma StrokedLast(s0: System, more: seq<Event>, n: nat, h: Conn, loaded: nat -> Atlas, had: Spot -> Atlas)
    requires |more| == n + 1 && Asks(more[n], h)
    ensures Run(s0, more) == Step(Run(s0, more[..n]), more[n])
    ensures var s := Run(s0, more[..n]);
      Stroked(s0, more, h, loaded, had)
      == BrushUpdate(Stroked(s0, more[..n], h, loaded, had), BrowserOf(s, h),
                     TockPacket(s.server, s.world, h, more[n].e), loaded(n))
  {
  }

  lemma StrokedNext(s0: System, evs: seq<Event>, more: seq<Event>, h: Conn, data: seq<Byte>, e: Env,
                    loaded: nat -> Atlas, had: Spot -> Atlas)
    requires Asked(evs, more, h, data, e)
    ensures var s := Run(s0, evs);
      && Run(s0, more) == Step(s, Message(h, data, e))
      && Stroked(s0, more, h, loaded, had)
         == BrushUpdate(Stroked(s0, evs, h, loaded, had), BrowserOf(s, h), TockPacket(s.server, s.world, h, e),
                        loaded(|evs|))
  {
    var n := |evs|;
    assert more[..n] == evs && more[n] == Message(h, data, e);
    StrokedLast(s0, more, n, h, loaded, had);
  }

  /** Whether this update carries tile t to h's canvas. */
  predicate Carries(s: System, h: Conn, t: int)
    requires h in s.server.clients && 0 <= t < Screen.CELLS
  {
    s.server.clients[h].mod[t] == 0 && Decodes(Holder(s.server).nick)
  }

  /** One tile's stroke after an update that leaves the whole frame decoded. */
  lemma StrokeAfterTock(s: System, h: Conn, data: seq<Byte>, e: Env, t: int, m: Strokes, loaded: Atlas)
    requires h in s.server.clients && Classify(data).MTock? && s.world.dims.Sendable() && 0 <= t < s.world.dims.Total()
    requires Cells(m) == BrowserOf(s, h).cells
      && SyncLaws.Delivered(s, h, t) == Some(Screen.Enc(s.server.clients[h].ownSc[t]))
    ensures var p, cell := Sync.Place(s.world.dims, t), Screen.Enc(s.server.clients[h].ownSc[t]);
      var m' := BrushUpdate(m, BrowserOf(s, h), TockPacket(s.server, s.world, h, e), loaded);
      && (!Carries(s, h, t) ==> p in m && m[p].cell == cell)
      && p in m' && m'[p] == Stroke(cell, if Carries(s, h, t) then InUse(e.ui.graphics, loaded) else m[p].atlas)
  {
    Sync.TockSeatFrame(s.server, e, h);
    Sync.HeaderIsValid(s.server, s.world, h, e);
    var p := Sync.Place(s.world.dims, t);
    if !Carries(s, h, t) {
      assert Sync.View(BrowserOf(s, h), s.world.dims, t) == Some(Cells(m)[p]);
    }
    BrushUpdateAt(m, BrowserOf(s, h), TockHeader(s.server, s.world, h, e), TockSeat(s.server, e).clients[h], t, p,
                  loaded);
  }

  /** End to end: after any guarded run, an answered update that reaches its browser leaves
      every tile of the canvas painted completely from the client's present frame, under the
      atlas it was painted with last; and that is how it looks in the present mode and atlas
      if and only if this update carried it or it looks the same under both. */
  lemma CanvasAfterTock(s0: System, evs: seq<Event>, more: seq<Event>, h: Conn, data: seq<Byte>, e: Env, t: int,
                        loaded: nat -> Atlas, had: Spot -> Atlas)
    requires h in s0.server.clients ==> s0.server.clients[h].mod == Screen.AllDirty()
    requires SyncLaws.Guarded(s0, evs, h) && !SyncLaws.Flagged(s0, evs, h) && Asked(evs, more, h, data, e)
    requires h in Run(s0, evs).server.clients && Sync.Reaches(Run(s0, evs), h)
    requires 0 <= t < Run(s0, evs).world.dims.Total()
    ensures var s := Run(s0, evs);
      var p, cell := Sync.Place(s.world.dims, t), Screen.Enc(s.server.clients[h].ownSc[t]);
      var was, now := Stroked(s0, evs, h, loaded, had), InUse(e.ui.graphics, loaded(|evs|));
      var look := LayersAt(Painted(s0, more, h, loaded, had), p);
      && (!Carries(s, h, t) ==> p in was)
      && look == Full(cell, if Carries(s, h, t) then now else was[p].atlas)
      && (look == Full(cell, now) <==> Carries(s, h, t) || SameLook(cell, was[p].atlas, now))
  {
    var s := Run(s0, evs);
    var p, cell := Sync.Place(s.world.dims, t), Screen.Enc(s.server.clients[h].ownSc[t]);
    var was, now := Stroked(s0, evs, h, loaded, had), InUse(e.ui.graphics, loaded(|evs|));
    SyncLaws.FullFrameAfterTock(s0, evs, h, data, e);
    SyncLaws.TockOutcome(s, h, data, e);
    PaintedIsStroked(s0, evs, h, loaded, had);
    PaintedIsStroked(s0, more, h, loaded, had);
    StrokedNext(s0, evs, more, h, data, e, loaded, had);
    StrokeAfterTock(s, h, data, e, t, was, loaded(|evs|));
    if !Carries(s, h, t) {
      SameLookIff(cell, was[p].atlas, now);
    }
  }
}
