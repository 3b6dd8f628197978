/** The browser's two-pass painting of one update (static/js/webfort.js, renderUpdate). */
module Canvas {
  import opened Bytes
  import opened Screen
  import opened Wire
  import opened Model

  /** One drawImage on a tile; a background covers whatever was there. */
  datatype Draw = Background(colour: int) | MapGlyph(ch: int, fg: int)
                | TextGlyph(ch: int, fg: int) | Sprite(texpos: int)

  /** The sprite numbers of the loaded atlas; None in ASCII mode or before it arrives. */
  type Atlas = Option<set<int>>

  type Layers = map<(int, int), seq<Draw>>

  predicate HasLower(c: Cell, a: Atlas) { a.Some? && c.lower > 0 && c.lower in a.value }

  predicate HasUpper(c: Cell, a: Atlas) { a.Some? && c.tex in a.value }

  predicate UsesSprites(c: Cell, a: Atlas) {
    a.Some? && c.tex > 0 && (HasLower(c, a) || HasUpper(c, a))
  }

  /** Text tiles wait for the second pass. */
  predicate Deferred(c: Cell, a: Atlas) { !UsesSprites(c, a) && c.text }

  /** What the first pass leaves on a tile. */
  function First(c: Cell, a: Atlas): seq<Draw> {
    [Background(c.bg)] +
    if UsesSprites(c, a) then
      (if HasLower(c, a) then [Sprite(c.lower)] else []) + (if HasUpper(c, a) then [Sprite(c.tex)] else [])
    else if c.text then []
    else [MapGlyph(c.ch, c.fg)]
  }

  /** The tile painted completely. */
  function Full(c: Cell, a: Atlas): seq<Draw> {
    First(c, a) + if Deferred(c, a) then [TextGlyph(c.ch, c.fg)] else []
  }

  /** What ends up on a tile, bottom first: the background; the terrain's sprite, the
      creature's above it; or else a glyph, from the text font on text tiles. */
  lemma PaintOrder(c: Cell, a: Atlas)
    ensures var low := a.Some? && c.lower > 0 && c.lower in a.value;
      var up := a.Some? && c.tex in a.value;
      Full(c, a) ==
        if c.tex > 0 && low && up then [Background(c.bg), Sprite(c.lower), Sprite(c.tex)]
        else if c.tex > 0 && low then [Background(c.bg), Sprite(c.lower)]
        else if c.tex > 0 && up then [Background(c.bg), Sprite(c.tex)]
        else if c.text then [Background(c.bg), TextGlyph(c.ch, c.fg)]
        else [Background(c.bg), MapGlyph(c.ch, c.fg)]
  {
  }

  function LayersAt(m: Layers, p: (int, int)): seq<Draw> {
    if p in m then m[p] else []
  }

  function PlaceOf(r: Patch): (int, int) { (r.x, r.y) }

  function FirstPass(m: Layers, ps: seq<Patch>, a: Atlas): Layers {
    if ps == [] then m else
    var r := ps[|ps| - 1];
    FirstPass(m, ps[..|ps| - 1], a)[PlaceOf(r) := First(r.cell, a)]
  }

  function SecondPass(m: Layers, ps: seq<Patch>, a: Atlas): Layers {
    if ps == [] then m else
    var r, m1 := ps[|ps| - 1], SecondPass(m, ps[..|ps| - 1], a);
    if Deferred(r.cell, a) then m1[PlaceOf(r) := LayersAt(m1, PlaceOf(r)) + [TextGlyph(r.cell.ch, r.cell.fg)]] else m1
  }

  function TwoPass(m: Layers, ps: seq<Patch>, a: Atlas): Layers {
    SecondPass(FirstPass(m, ps, a), ps, a)
  }

  /** Each record painted completely before the next. */
  function OnePass(m: Layers, ps: seq<Patch>, a: Atlas): Layers {
    if ps == [] then m else
    var r := ps[|ps| - 1];
    OnePass(m, ps[..|ps| - 1], a)[PlaceOf(r) := Full(r.cell, a)]
  }

  class Context {
    var layers: Layers

    constructor ()
      ensures layers == map[]
    {
      layers := map[];
    }

    /** renderUpdate: the records in order, the text ones remembered in t and finished last. */
    method RenderUpdate(data: seq<Patch>, atlas: Atlas)
      modifies this
      ensures layers == TwoPass(old(layers), data, atlas)
    {
      var t: seq<nat> := [];
      for k := 0 to |data|
        invariant layers == FirstPass(old(layers), data[..k], atlas)
        invariant t == DeferredIn(data[..k], atlas)
      {
        assert data[..k + 1][..k] == data[..k];
        var r := data[k];
        layers := layers[PlaceOf(r) := First(r.cell, atlas)];
        if Deferred(r.cell, atlas) {
          t := t + [k];
        }
      }
      assert data[..|data|] == data;
      DeferredInRange(data, atlas);
      SecondPassByIndex(layers, data, atlas);
      FinishText(data, t);
    }

    /** The text glyphs that were put off. */
    method FinishText(data: seq<Patch>, t: seq<nat>)
      requires forall i :: 0 <= i < |t| ==> t[i] < |data|
      modifies this
      ensures layers == PaintText(old(layers), data, t)
    {
      for m := 0 to |t|
        invariant layers == PaintText(old(layers), data, t[..m])
      {
        assert t[..m + 1][..m] == t[..m];
        var r := data[t[m]];
        layers := layers[PlaceOf(r) := LayersAt(layers, PlaceOf(r)) + [TextGlyph(r.cell.ch, r.cell.fg)]];
      }
      assert t[..|t|] == t;
    }
  }

  /** The positions collected in t. */
  function DeferredIn(ps: seq<Patch>, a: Atlas): seq<nat> {
    if ps == [] then [] else
    var n := |ps| - 1;
    DeferredIn(ps[..n], a) + if Deferred(ps[n].cell, a) then [n] else []
  }

  function PaintText(m: Layers, ps: seq<Patch>, t: seq<nat>): Layers
    requires forall i :: 0 <= i < |t| ==> t[i] < |ps|
  {
    if t == [] then m else
    var r, m1 := ps[t[|t| - 1]], PaintText(m, ps, t[..|t| - 1]);
    m1[PlaceOf(r) := LayersAt(m1, PlaceOf(r)) + [TextGlyph(r.cell.ch, r.cell.fg)]]
  }

  lemma {:induction false} DeferredInRange(ps: seq<Patch>, a: Atlas)
    ensures forall i :: 0 <= i < |DeferredIn(ps, a)| ==> DeferredIn(ps, a)[i] < |ps|
  {
    if ps != [] { DeferredInRange(ps[..|ps| - 1], a); }
  }

  lemma {:induction false} PaintTextPrefix(m: Layers, ps: seq<Patch>, t: seq<nat>, n: nat)
    requires n <= |ps| && forall i :: 0 <= i < |t| ==> t[i] < n
    ensures PaintText(m, ps, t) == PaintText(m, ps[..n], t)
  {
    if t != [] { PaintTextPrefix(m, ps, t[..|t| - 1], n); }
  }

  lemma {:induction false} SecondPassByIndex(m: Layers, ps: seq<Patch>, a: Atlas)
    requires forall i :: 0 <= i < |DeferredIn(ps, a)| ==> DeferredIn(ps, a)[i] < |ps|
    ensures PaintText(m, ps, DeferredIn(ps, a)) == SecondPass(m, ps, a)
  {
    if ps != [] {
      var n := |ps| - 1;
      DeferredInRange(ps[..n], a);
      SecondPassByIndex(m, ps[..n], a);
      PaintTextPrefix(m, ps, DeferredIn(ps[..n], a), n);
      if Deferred(ps[n].cell, a) {
        assert DeferredIn(ps, a)[..|DeferredIn(ps, a)| - 1] == DeferredIn(ps[..n], a);
      } else {
        assert DeferredIn(ps, a) == DeferredIn(ps[..n], a);
      }
    }
  }

  // ----- when deferring the text makes no difference -----

  /** The text glyphs waiting for tile p, in order. */
  function TextAt(ps: seq<Patch>, a: Atlas, p: (int, int)): seq<Draw> {
    if ps == [] then [] else
    var r := ps[|ps| - 1];
    TextAt(ps[..|ps| - 1], a, p) +
    if PlaceOf(r) == p && Deferred(r.cell, a) then [TextGlyph(r.cell.ch, r.cell.fg)] else []
  }

  lemma {:induction false} SecondPassAt(m: Layers, ps: seq<Patch>, a: Atlas, p: (int, int))
    ensures LayersAt(SecondPass(m, ps, a), p) == LayersAt(m, p) + TextAt(ps, a, p)
    ensures p in SecondPass(m, ps, a) <==> p in m || TextAt(ps, a, p) != []
  {
    if ps != [] { SecondPassAt(m, ps[..|ps| - 1], a, p); }
  }

  /** No text record is followed by another record for the same tile. */
  ghost predicate TextStands(ps: seq<Patch>, a: Atlas) {
    forall i, j :: 0 <= i < j < |ps| && PlaceOf(ps[i]) == PlaceOf(ps[j]) ==> !Deferred(ps[i].cell, a)
  }

  /** The text still wanted on p: the glyph of the last record there, if it is text. */
  function LastText(ps: seq<Patch>, a: Atlas, p: (int, int)): seq<Draw> {
    if ps == [] then [] else
    var r := ps[|ps| - 1];
    if PlaceOf(r) == p then (if Deferred(r.cell, a) then [TextGlyph(r.cell.ch, r.cell.fg)] else [])
    else LastText(ps[..|ps| - 1], a, p)
  }

  predicate Touched(ps: seq<Patch>, p: (int, int)) {
    exists i :: 0 <= i < |ps| && PlaceOf(ps[i]) == p
  }

  lemma {:induction false} OnePassAt(m: Layers, ps: seq<Patch>, a: Atlas, p: (int, int))
    ensures LayersAt(OnePass(m, ps, a), p) == LayersAt(FirstPass(m, ps, a), p) + LastText(ps, a, p)
    ensures p in OnePass(m, ps, a) <==> p in FirstPass(m, ps, a)
  {
    if ps != [] { OnePassAt(m, ps[..|ps| - 1], a, p); }
  }

  lemma {:induction false} TextAtLast(ps: seq<Patch>, a: Atlas, p: (int, int))
    requires TextStands(ps, a)
    ensures TextAt(ps, a, p) == LastText(ps, a, p)
  {
    if ps != [] {
      var n := |ps| - 1;
      TextAtLast(ps[..n], a, p);
      if PlaceOf(ps[n]) == p {
        NoEarlierText(ps, a, n);
      }
    }
  }

  lemma {:induction false} NoEarlierText(ps: seq<Patch>, a: Atlas, n: nat)
    requires TextStands(ps, a) && n < |ps|
    ensures TextAt(ps[..n], a, PlaceOf(ps[n])) == []
  {
    NoText(ps[..n], a, PlaceOf(ps[n]));
  }

  lemma {:induction false} NoText(ps: seq<Patch>, a: Atlas, p: (int, int))
    requires forall i :: 0 <= i < |ps| && PlaceOf(ps[i]) == p ==> !Deferred(ps[i].cell, a)
    ensures TextAt(ps, a, p) == []
  {
    if ps != [] { NoText(ps[..|ps| - 1], a, p); }
  }

  lemma {:induction false} TextCount(ps: seq<Patch>, a: Atlas, p: (int, int), i: nat)
    requires i < |ps| && PlaceOf(ps[i]) == p && Deferred(ps[i].cell, a)
    ensures TextAt(ps, a, p) != []
  {
    if i < |ps| - 1 { TextCount(ps[..|ps| - 1], a, p, i); }
  }

  /** More text was queued than the last record wants, once a text record is overtaken. */
  lemma {:induction false} OvertakenText(ps: seq<Patch>, a: Atlas, i: nat, j: nat)
    requires i < j < |ps| && PlaceOf(ps[i]) == PlaceOf(ps[j]) && Deferred(ps[i].cell, a)
    ensures |TextAt(ps, a, PlaceOf(ps[i]))| > |LastText(ps, a, PlaceOf(ps[i]))|
  {
    var n, p := |ps| - 1, PlaceOf(ps[i]);
    if j < n && PlaceOf(ps[n]) != p {
      OvertakenText(ps[..n], a, i, j);
    } else {
      TextCount(ps[..n], a, p, i);
    }
  }

  /** The two-pass painting equals painting each record completely, in the same order,
      if and only if no text record is overtaken by a later record for its tile. */
  lemma TwoPassIff(m: Layers, ps: seq<Patch>, a: Atlas)
    ensures TwoPass(m, ps, a) == OnePass(m, ps, a) <==> TextStands(ps, a)
  {
    var m1 := FirstPass(m, ps, a);
    if TextStands(ps, a) {
      forall p: (int, int)
        ensures (p in TwoPass(m, ps, a) <==> p in OnePass(m, ps, a))
                && LayersAt(TwoPass(m, ps, a), p) == LayersAt(OnePass(m, ps, a), p)
      {
        SecondPassAt(m1, ps, a, p);
        OnePassAt(m, ps, a, p);
        TextAtLast(ps, a, p);
        TextTouches(m, ps, a, p);
      }
      SameLayers(TwoPass(m, ps, a), OnePass(m, ps, a));
    } else {
      var i, j :| 0 <= i < j < |ps| && PlaceOf(ps[i]) == PlaceOf(ps[j]) && Deferred(ps[i].cell, a);
      var p := PlaceOf(ps[i]);
      SecondPassAt(m1, ps, a, p);
      OnePassAt(m, ps, a, p);
      OvertakenText(ps, a, i, j);
    }
  }

  lemma {:induction false} TextTouches(m: Layers, ps: seq<Patch>, a: Atlas, p: (int, int))
    ensures TextAt(ps, a, p) != [] ==> p in FirstPass(m, ps, a)
  {
    if ps != [] { TextTouches(m, ps[..|ps| - 1], a, p); }
  }

  lemma SameLayers(m: Layers, n: Layers)
    requires forall p: (int, int) :: (p in m <==> p in n) && LayersAt(m, p) == LayersAt(n, p)
    ensures m == n
  {
    forall p: (int, int) ensures (p in m <==> p in n) && (p in m ==> m[p] == n[p]) {
      assert LayersAt(m, p) == LayersAt(n, p);
    }
  }

  // ----- tock's packets -----

  ghost predicate Distinct(ps: seq<Patch>) {
    forall i, j :: 0 <= i < j < |ps| ==> PlaceOf(ps[i]) != PlaceOf(ps[j])
  }

  /** Records in the order tock visits their tiles. */
  ghost predicate InOrder(rs: seq<Rec>, x: int, y: int) {
    && (forall i :: 0 <= i < |rs| ==> Before(rs[i].x, rs[i].y, x, y))
    && (forall i, j :: 0 <= i < j < |rs| ==> Before(rs[i].x, rs[i].y, rs[j].x, rs[j].y))
  }

  lemma {:induction false} DirtyInOrder(c: Client, d: Dims, x: int, y: int)
    requires d.Valid() && 0 <= x <= d.w && 0 <= y <= d.h && (y == d.h ==> x == 0)
    ensures InOrder(DirtyBefore(c, d, x, y), x, y)
    decreases y, x
  {
    if x > 0 {
      DirtyInOrder(c, d, x - 1, y);
      var rs, r := DirtyBefore(c, d, x - 1, y), RecAt(c, d, x - 1, y);
      assert r != [] ==> r[0].x == x - 1 && r[0].y == y;
      assert DirtyBefore(c, d, x, y) == rs + r;
    } else if y > 0 {
      DirtyInOrder(c, d, d.w, y - 1);
      RowEnd(DirtyBefore(c, d, d.w, y - 1), d, y);
    }
  }

  lemma RowEnd(rs: seq<Rec>, d: Dims, y: int)
    requires InOrder(rs, d.w, y - 1)
    ensures InOrder(rs, 0, y)
  {
  }

  /** A packet from tock never names a tile twice, so deferring its text is invisible. */
  lemma TockPaintsOnce(m: Layers, c: Client, d: Dims, a: Atlas)
    requires d.Valid()
    ensures Distinct(Patches(Dirty(c, d)))
    ensures TwoPass(m, Patches(Dirty(c, d)), a) == OnePass(m, Patches(Dirty(c, d)), a)
  {
    DirtyInOrder(c, d, 0, d.h);
    var rs := Dirty(c, d);
    forall i, j | 0 <= i < j < |rs| ensures PlaceOf(Patches(rs)[i]) != PlaceOf(Patches(rs)[j]) {
      assert Before(rs[i].x, rs[i].y, rs[j].x, rs[j].y);
    }
    TwoPassIff(m, Patches(Dirty(c, d)), a);
  }

  lemma {:induction false} OnePassDistinct(m: Layers, ps: seq<Patch>, a: Atlas, p: (int, int))
    requires Distinct(ps)
    ensures p in OnePass(m, ps, a) <==> p in m || Touched(ps, p)
    ensures forall i :: 0 <= i < |ps| && PlaceOf(ps[i]) == p ==> LayersAt(OnePass(m, ps, a), p) == Full(ps[i].cell, a)
    ensures !Touched(ps, p) ==> LayersAt(OnePass(m, ps, a), p) == LayersAt(m, p)
  {
    if ps != [] {
      var n := |ps| - 1;
      OnePassDistinct(m, ps[..n], a, p);
      if Touched(ps[..n], p) {
        var i :| 0 <= i < n && PlaceOf(ps[..n][i]) == p;
        assert PlaceOf(ps[i]) == p;
      }
    }
  }

  lemma TouchedToo(ps: seq<Patch>, qs: seq<Patch>, p: (int, int))
    requires forall r :: r in ps ==> r in qs
    ensures Touched(ps, p) ==> Touched(qs, p)
  {
    if Touched(ps, p) {
      var i :| 0 <= i < |ps| && PlaceOf(ps[i]) == p;
      assert ps[i] in qs;
    }
  }

  /** The same records in any order leave the same canvas. */
  lemma AnyOrder(m: Layers, ps: seq<Patch>, qs: seq<Patch>, a: Atlas)
    requires Distinct(ps) && Distinct(qs) && forall r :: r in ps <==> r in qs
    ensures TwoPass(m, ps, a) == OnePass(m, qs, a)
  {
    TwoPassIff(m, ps, a);
    var x, y := OnePass(m, ps, a), OnePass(m, qs, a);
    forall p: (int, int) ensures (p in x <==> p in y) && LayersAt(x, p) == LayersAt(y, p) {
      OnePassDistinct(m, ps, a, p);
      OnePassDistinct(m, qs, a, p);
      TouchedToo(ps, qs, p);
      TouchedToo(qs, ps, p);
      if Touched(ps, p) {
        var i :| 0 <= i < |ps| && PlaceOf(ps[i]) == p;
        assert ps[i] in qs;
      }
    }
    SameLayers(x, y);
  }
}
