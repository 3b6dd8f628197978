/** Camera moves: the spectator clamps after every message, the driver's moves are added
    up and clamped once per tick. */
module Camera {
  import Screen
  import opened Bytes
  import opened Wire
  import opened Model

  /** One axis of the bound checks. */
  function Bound(v: int, lo: int, hi: Option<int>): int {
    if hi.Some? then Lower(Raise(v, lo), hi.value) else Raise(v, lo)
  }

  function HiX(m: Option<MapSize>, d: Screen.Dims): Option<int> {
    if m.Some? then Some(m.value.sx * 16 - d.w + 30) else None
  }

  function HiY(m: Option<MapSize>, d: Screen.Dims): Option<int> {
    if m.Some? then Some(m.value.sy * 16 - d.h + 30) else None
  }

  function HiZ(m: Option<MapSize>): Option<int> {
    if m.Some? && m.value.sz > 0 then Some(m.value.sz - 1) else None
  }

  lemma ClampByAxis(p: Pos, m: Option<MapSize>, d: Screen.Dims)
    ensures ClampCam(p, m, d) == Pos(Bound(p.x, -30, HiX(m, d)), Bound(p.y, -30, HiY(m, d)), Bound(p.z, 0, HiZ(m)))
  {
  }

  function Sum(ds: seq<int>): int {
    if ds == [] then 0 else Sum(ds[..|ds| - 1]) + ds[|ds| - 1]
  }

  /** Clamping after each move. */
  function Walk(p: int, ds: seq<int>, lo: int, hi: Option<int>): int {
    if ds == [] then p else Bound(Walk(p, ds[..|ds| - 1], lo, hi) + ds[|ds| - 1], lo, hi)
  }

  predicate SameSign(ds: seq<int>) {
    (forall i :: 0 <= i < |ds| ==> ds[i] >= 0) || (forall i :: 0 <= i < |ds| ==> ds[i] <= 0)
  }

  lemma {:induction false} SumSign(ds: seq<int>)
    ensures (forall i :: 0 <= i < |ds| ==> ds[i] >= 0) ==> Sum(ds) >= 0
    ensures (forall i :: 0 <= i < |ds| ==> ds[i] <= 0) ==> Sum(ds) <= 0
  {
    if ds != [] { SumSign(ds[..|ds| - 1]); }
  }

  lemma BoundTwice(p: int, s: int, d: int, lo: int, hi: Option<int>)
    requires Bound(p, lo, hi) == p && ((s >= 0 && d >= 0) || (s <= 0 && d <= 0))
    ensures Bound(Bound(p + s, lo, hi) + d, lo, hi) == Bound(p + s + d, lo, hi)
  {
  }

  /** From an in-range start, moves of one sign can be added up first: any bounds at all,
      even crossing ones on a map smaller than the screen. */
  lemma {:induction false} WalkIsBatch(p: int, ds: seq<int>, lo: int, hi: Option<int>)
    requires Bound(p, lo, hi) == p && SameSign(ds)
    ensures Walk(p, ds, lo, hi) == Bound(p + Sum(ds), lo, hi)
  {
    if ds != [] {
      var n := |ds| - 1;
      WalkIsBatch(p, ds[..n], lo, hi);
      SumSign(ds[..n]);
      BoundTwice(p, Sum(ds[..n]), ds[n], lo, hi);
    }
  }

  /** Moves that turn around at an edge do not add up: here the spectator ends ten tiles
      from where the same messages would take a driver. */
  lemma TurningBackDiffers()
    ensures Walk(0, [-40, 10], -30, None) == -20 && Bound(0 + Sum([-40, 10]), -30, None) == -30
  {
    assert [-40, 10][..1] == [-40] && [-40][..0] == [];
    assert Walk(0, [-40], -30, None) == -30 && Sum([-40]) == -40;
  }

  /** Wherever in range a walk starts, it is the unclamped walk kept between the walks from
      the two ends. */
  lemma {:induction false} WalkBetween(p: int, ds: seq<int>, lo: int, hi: Option<int>)
    requires Bound(p, lo, hi) == p && (hi.Some? ==> lo <= hi.value)
    ensures var least := Walk(lo, ds, lo, hi);
      && lo <= least
      && (hi.None? ==> Walk(p, ds, lo, hi) == Raise(p + Sum(ds), least))
      && (hi.Some? ==> var most := Walk(hi.value, ds, lo, hi);
           least <= most <= hi.value && Walk(p, ds, lo, hi) == Lower(Raise(p + Sum(ds), least), most))
    decreases |ds|
  {
    if ds != [] { WalkBetween(p, ds[..|ds| - 1], lo, hi); }
  }

  /** The batched move lands between the walks from the two ends. */
  predicate BatchReached(p: int, ds: seq<int>, lo: int, hi: Option<int>) {
    var q := Bound(p + Sum(ds), lo, hi);
    (hi.Some? && hi.value < lo)
    || (Walk(lo, ds, lo, hi) <= q && (hi.Some? ==> q <= Walk(hi.value, ds, lo, hi)))
  }

  lemma CrossedWalk(p: int, ds: seq<int>, lo: int, hi: int)
    requires hi < lo && Bound(p, lo, Some(hi)) == p
    ensures Walk(p, ds, lo, Some(hi)) == hi == Bound(p + Sum(ds), lo, Some(hi))
  {
  }

  /** For any list of moves and any bounds: clamping after each move and clamping their sum
      agree exactly when the bounds cross, or the clamped sum is no less than where the lower
      end would be walked to and no more than where the upper end would. */
  lemma WalkIsBatchIff(p: int, ds: seq<int>, lo: int, hi: Option<int>)
    requires Bound(p, lo, hi) == p
    ensures Walk(p, ds, lo, hi) == Bound(p + Sum(ds), lo, hi) <==> BatchReached(p, ds, lo, hi)
  {
    if hi.Some? && hi.value < lo {
      CrossedWalk(p, ds, lo, hi.value);
    } else {
      WalkBetween(p, ds, lo, hi);
    }
  }

  // ----- in the model -----

  function SumPos(ds: seq<Pos>): Pos {
    if ds == [] then ORIGIN else Shift(SumPos(ds[..|ds| - 1]), ds[|ds| - 1])
  }

  /** A spectator's client after a list of camera messages. */
  function Pan(c: Client, w: World, ds: seq<Pos>): Client {
    if ds == [] then c else PanSpectator(Pan(c, w, ds[..|ds| - 1]), w, ds[|ds| - 1])
  }

  function Xs(ds: seq<Pos>): seq<int> { seq(|ds|, i requires 0 <= i < |ds| => ds[i].x) }
  function Ys(ds: seq<Pos>): seq<int> { seq(|ds|, i requires 0 <= i < |ds| => ds[i].y) }
  function Zs(ds: seq<Pos>): seq<int> { seq(|ds|, i requires 0 <= i < |ds| => ds[i].z) }

  lemma {:induction false} PanByAxis(c: Client, w: World, ds: seq<Pos>)
    ensures Base(Pan(c, w, ds), w) == Pos(Walk(Base(c, w).x, Xs(ds), -30, HiX(w.size, w.dims)),
                                          Walk(Base(c, w).y, Ys(ds), -30, HiY(w.size, w.dims)),
                                          Walk(Base(c, w).z, Zs(ds), 0, HiZ(w.size)))
    ensures SumPos(ds) == Pos(Sum(Xs(ds)), Sum(Ys(ds)), Sum(Zs(ds)))
  {
    if ds != [] {
      var n := |ds| - 1;
      PanByAxis(c, w, ds[..n]);
      assert Xs(ds)[..n] == Xs(ds[..n]) && Ys(ds)[..n] == Ys(ds[..n]) && Zs(ds)[..n] == Zs(ds[..n]);
      ClampByAxis(Shift(Base(Pan(c, w, ds[..n]), w), ds[n]), w.size, w.dims);
    }
  }

  /** Every axis of a list of moves agrees with its batch. */
  predicate AllReached(p: Pos, ds: seq<Pos>, m: Option<MapSize>, d: Screen.Dims) {
    && BatchReached(p.x, Xs(ds), -30, HiX(m, d)) && BatchReached(p.y, Ys(ds), -30, HiY(m, d))
    && BatchReached(p.z, Zs(ds), 0, HiZ(m))
  }

  /** A spectator who sends any list of moves ends where a driver at the same in-range place
      ends when the tick drains the same moves, if and only if every axis agrees. */
  lemma SpectatorMatchesDriver(c: Client, s: Server, w: World, ds: seq<Pos>)
    requires Base(c, w) == w.window && ClampCam(w.window, w.size, w.dims) == w.window && s.pending == SumPos(ds)
    ensures Base(Pan(c, w, ds), w) == DrainedWindow(s, w) <==> AllReached(w.window, ds, w.size, w.dims)
  {
    PanByAxis(c, w, ds);
    ClampByAxis(w.window, w.size, w.dims);
    ClampByAxis(Shift(w.window, SumPos(ds)), w.size, w.dims);
    WalkIsBatchIff(w.window.x, Xs(ds), -30, HiX(w.size, w.dims));
    WalkIsBatchIff(w.window.y, Ys(ds), -30, HiY(w.size, w.dims));
    WalkIsBatchIff(w.window.z, Zs(ds), 0, HiZ(w.size));
    if SumPos(ds) == ORIGIN {
      assert Shift(w.window, ORIGIN) == w.window;
    }
  }

  /** Moves that do not turn back on any axis always agree. */
  lemma OneWayMatches(p: Pos, ds: seq<Pos>, m: Option<MapSize>, d: Screen.Dims)
    requires ClampCam(p, m, d) == p && SameSign(Xs(ds)) && SameSign(Ys(ds)) && SameSign(Zs(ds))
    ensures AllReached(p, ds, m, d)
  {
    ClampByAxis(p, m, d);
    WalkIsBatch(p.x, Xs(ds), -30, HiX(m, d));
    WalkIsBatch(p.y, Ys(ds), -30, HiY(m, d));
    WalkIsBatch(p.z, Zs(ds), 0, HiZ(m));
    WalkIsBatchIff(p.x, Xs(ds), -30, HiX(m, d));
    WalkIsBatchIff(p.y, Ys(ds), -30, HiY(m, d));
    WalkIsBatchIff(p.z, Zs(ds), 0, HiZ(m));
  }

  // ----- the message itself -----

  /** sendCamMove */
  function CamMessage(d: Pos): seq<Byte> {
    [117, d.x % 256, d.y % 256, d.z % 256]
  }

  lemma Int8RoundTrip(v: int)
    requires -128 <= v <= 127
    ensures Int8(v % 256) == v
  {
    assert v % 256 == if v < 0 then v + 256 else v;
  }

  /** Any move whose parts fit a signed byte arrives as sent. */
  lemma CamMessageRoundTrip(d: Pos)
    requires -128 <= d.x <= 127 && -128 <= d.y <= 127 && -128 <= d.z <= 127
    ensures Classify(CamMessage(d)) == MCam(d)
  {
    Int8RoundTrip(d.x);
    Int8RoundTrip(d.y);
    Int8RoundTrip(d.z);
  }
}
