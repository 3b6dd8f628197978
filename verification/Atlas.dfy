/** The sprite atlas: fixed-size cells packed 64 to a row in one linear pixel array
    (server/webfort.cpp, blit_surface_tile and the layout of wf_build_atlas). */
module Atlas {
  import opened Bytes

  const COLS: nat := 64

  /** A surface's decoded pixels: four bytes each, row after row. */
  datatype Sprite = Sprite(w: nat, h: nat, rgba: seq<seq<Byte>>) {
    predicate Valid() {
      |rgba| == w * h && forall i :: 0 <= i < |rgba| ==> |rgba[i]| == 4
    }

    function Pixel(x: nat, y: nat): seq<Byte>
      requires Valid() && x < w && y < h
    {
      InCell(w, h, x, y);
      rgba[y * w + x]
    }
  }

  const CLEAR: seq<Byte> := [0, 0, 0, 0]

  datatype Layout = Layout(num: nat, tw: nat, th: nat) {
    predicate Valid() { num > 0 && tw > 0 && th > 0 }
    function Cols(): nat { Min(num, COLS) }
    function Rows(): nat requires Valid() { (num + Cols() - 1) / Cols() }
    function W(): nat { Cols() * tw }
    function H(): nat requires Valid() { Rows() * th }
    function X(idx: nat): nat { idx % COLS * tw }
    function Y(idx: nat): nat { idx / COLS * th }
    function Bytes(): nat requires Valid() { W() * H() * 4 }
  }

  /** Where the first byte of pixel (x, y) lives. */
  function Offset(w: nat, x: nat, y: nat): nat { (y * w + x) * 4 }

  lemma InCell(w: nat, h: nat, x: nat, y: nat)
    requires x < w && y < h
    ensures 0 <= y * w + x < w * h
  {
    MulMono(y + 1, h, w);
  }

  lemma OffsetInRange(w: nat, h: nat, x: nat, y: nat)
    requires x < w && y < h
    ensures Offset(w, x, y) + 4 <= w * h * 4
  {
    InCell(w, h, x, y);
  }

  lemma OffsetsApart(w: nat, x: nat, y: nat, x': nat, y': nat)
    requires x < w && x' < w && (x, y) != (x', y')
    ensures Offset(w, x, y) + 4 <= Offset(w, x', y') || Offset(w, x', y') + 4 <= Offset(w, x, y)
  {
    MulMono(y + 1, y', w);
    MulMono(y' + 1, y, w);
  }

  /** The sheet has no more columns than sprites or 64, and just the rows they need. */
  lemma LayoutTight(l: Layout)
    requires l.Valid()
    ensures var cols := if l.num < 64 then l.num else 64;
      l.W() == cols * l.tw && l.H() == l.Rows() * l.th && (l.Rows() - 1) * cols < l.num <= l.Rows() * cols
  {
  }

  /** Placement divides by 64 while the width is cut to the sprite count: the cell is
      inside the atlas all the same. */
  lemma CellInside(l: Layout, idx: nat)
    requires l.Valid() && idx < l.num
    ensures l.X(idx) + l.tw <= l.W() && l.Y(idx) + l.th <= l.H()
  {
    var c := l.Cols();
    assert idx % COLS + 1 <= c;
    MulMono(idx % COLS + 1, c, l.tw);
    assert idx / COLS + 1 <= l.Rows();
    MulMono(idx / COLS + 1, l.Rows(), l.th);
  }

  /** Cells of different ranks along one side do not overlap there. */
  lemma SidesApart(a: nat, b: nat, size: nat)
    requires a < b
    ensures a * size + size <= b * size
  {
    MulMono(a + 1, b, size);
  }

  /** Two sprites never share a pixel. */
  lemma CellsApart(l: Layout, i: nat, j: nat)
    requires l.Valid() && i < l.num && j < l.num && i != j
    ensures l.X(i) + l.tw <= l.X(j) || l.X(j) + l.tw <= l.X(i) || l.Y(i) + l.th <= l.Y(j) || l.Y(j) + l.th <= l.Y(i)
  {
    if i / COLS < j / COLS {
      SidesApart(i / COLS, j / COLS, l.th);
    } else if j / COLS < i / COLS {
      SidesApart(j / COLS, i / COLS, l.th);
    } else if i % COLS < j % COLS {
      SidesApart(i % COLS, j % COLS, l.tw);
    } else {
      SidesApart(j % COLS, i % COLS, l.tw);
    }
  }

  /** The four bytes of pixel (x, y). */
  ghost function PixelAt(pixels: seq<Byte>, w: nat, x: nat, y: nat): seq<Byte>
    requires Offset(w, x, y) + 4 <= |pixels|
  {
    pixels[Offset(w, x, y)..Offset(w, x, y) + 4]
  }

  /** What pixel (px, py) of a cell must hold: the sprite, cut to the cell, over clear. */
  ghost function CellPixel(s: Sprite, tw: nat, th: nat, px: nat, py: nat): seq<Byte>
    requires s.Valid()
  {
    if px < Min(s.w, tw) && py < Min(s.h, th) then s.Pixel(px, py) else CLEAR
  }

  /** The four stores of the innermost loop. */
  method WritePixel(pixels: array<Byte>, w: nat, ghost h: nat, x: nat, y: nat, rgba: seq<Byte>)
    requires pixels.Length == w * h * 4 && x < w && y < h && |rgba| == 4
    modifies pixels
    ensures forall x', y' :: 0 <= x' < w && 0 <= y' < h ==>
      Offset(w, x', y') + 4 <= pixels.Length
      && PixelAt(pixels[..], w, x', y')
         == if x' == x && y' == y then rgba else PixelAt(old(pixels[..]), w, x', y')
  {
    OffsetInRange(w, h, x, y);
    var oi := Offset(w, x, y);
    pixels[oi] := rgba[0];
    pixels[oi + 1] := rgba[1];
    pixels[oi + 2] := rgba[2];
    pixels[oi + 3] := rgba[3];
    forall x', y' | 0 <= x' < w && 0 <= y' < h
      ensures Offset(w, x', y') + 4 <= pixels.Length
      ensures PixelAt(pixels[..], w, x', y')
           == if x' == x && y' == y then rgba else PixelAt(old(pixels[..]), w, x', y')
    {
      OffsetInRange(w, h, x', y');
      if (x', y') != (x, y) {
        OffsetsApart(w, x, y, x', y');
      }
    }
  }

  /** A picture of w by h pixels whose every pixel is given by f. */
  ghost predicate Shows(pixels: seq<Byte>, w: nat, h: nat, f: (nat, nat) -> seq<Byte>) {
    && |pixels| == w * h * 4
    && forall x, y :: 0 <= x < w && 0 <= y < h ==>
         Offset(w, x, y) + 4 <= |pixels| && PixelAt(pixels, w, x, y) == f(x, y)
  }

  /** The picture f with the first rows (and part of the next) of a sprite laid over it. */
  ghost function Laid(f: (nat, nat) -> seq<Byte>, s: Sprite, dx: nat, dy: nat, cw: nat, px: nat, py: nat):
    (nat, nat) -> seq<Byte>
    requires s.Valid() && cw <= s.w && py <= s.h && (py == s.h ==> px == 0)
  {
    (x: nat, y: nat) =>
      if dx <= x < dx + cw && dy <= y && (y < dy + py || (y == dy + py && x < dx + px && py < s.h))
      then s.Pixel(x - dx, y - dy) else f(x, y)
  }

  /** blit_surface_tile: the sprite, cut to the cell, replaces what was there; every other
      pixel keeps its colour. */
  method BlitSurfaceTile(s: Sprite, tw: nat, th: nat, pixels: array<Byte>, atlasW: nat, ghost atlasH: nat,
                         destX: nat, destY: nat, ghost f: (nat, nat) -> seq<Byte>)
    requires s.Valid() && destX + tw <= atlasW && destY + th <= atlasH
    requires Shows(pixels[..], atlasW, atlasH, f)
    modifies pixels
    ensures Shows(pixels[..], atlasW, atlasH, Laid(f, s, destX, destY, Min(s.w, tw), 0, Min(s.h, th)))
  {
    var copyW, copyH := Min(s.w, tw), Min(s.h, th);
    var py := 0;
    while py < copyH
      invariant 0 <= py <= copyH
      invariant Shows(pixels[..], atlasW, atlasH, Laid(f, s, destX, destY, copyW, 0, py))
    {
      var px := 0;
      while px < copyW
        invariant 0 <= px <= copyW
        invariant Shows(pixels[..], atlasW, atlasH, Laid(f, s, destX, destY, copyW, px, py))
      {
        ghost var before := pixels[..];
        WritePixel(pixels, atlasW, atlasH, destX + px, destY + py, PixelOf(s, px, py));
        LaidNext(before, pixels[..], atlasW, atlasH, f, s, destX, destY, copyW, px, py);
        px := px + 1;
      }
      LaidRow(pixels[..], atlasW, atlasH, f, s, destX, destY, copyW, py);
      py := py + 1;
    }
  }

  function PixelOf(s: Sprite, x: nat, y: nat): (p: seq<Byte>)
    requires s.Valid() && x < s.w && y < s.h
    ensures p == s.Pixel(x, y) && |p| == 4
  {
    InCell(s.w, s.h, x, y);
    s.rgba[y * s.w + x]
  }

  lemma LaidNext(before: seq<Byte>, after: seq<Byte>, w: nat, h: nat, f: (nat, nat) -> seq<Byte>,
                 s: Sprite, dx: nat, dy: nat, cw: nat, px: nat, py: nat)
    requires s.Valid() && cw <= s.w && px < cw && py < s.h && |after| == w * h * 4
    requires Shows(before, w, h, Laid(f, s, dx, dy, cw, px, py))
    requires forall x, y :: 0 <= x < w && 0 <= y < h ==>
      Offset(w, x, y) + 4 <= |after|
      && PixelAt(after, w, x, y) == if x == dx + px && y == dy + py then s.Pixel(px, py) else PixelAt(before, w, x, y)
    ensures Shows(after, w, h, Laid(f, s, dx, dy, cw, px + 1, py))
  {
  }

  lemma LaidRow(pixels: seq<Byte>, w: nat, h: nat, f: (nat, nat) -> seq<Byte>,
                s: Sprite, dx: nat, dy: nat, cw: nat, py: nat)
    requires s.Valid() && cw <= s.w && py < s.h
    requires Shows(pixels, w, h, Laid(f, s, dx, dy, cw, cw, py))
    ensures Shows(pixels, w, h, Laid(f, s, dx, dy, cw, 0, py + 1))
  {
  }

  // ----- the whole atlas -----

  /** One line of atlas.json: a sprite number and its place. */
  datatype Entry = Entry(idx: nat, x: nat, y: nat)

  /** Pixel (px, py) of cell idx is v. */
  ghost predicate CellShows(pixels: seq<Byte>, l: Layout, idx: nat, px: nat, py: nat, v: seq<Byte>) {
    Offset(l.W(), l.X(idx) + px, l.Y(idx) + py) + 4 <= |pixels|
    && PixelAt(pixels, l.W(), l.X(idx) + px, l.Y(idx) + py) == v
  }

  ghost function Wanted(l: Layout, s: Option<Sprite>, px: nat, py: nat): seq<Byte>
    requires s.Some? ==> s.value.Valid()
  {
    if s.Some? then CellPixel(s.value, l.tw, l.th, px, py) else CLEAR
  }

  /** Every pixel of cell idx holds the sprite's own pixel, or clear if none was copied. */
  ghost predicate CellHolds(pixels: seq<Byte>, l: Layout, idx: nat, s: Option<Sprite>)
    requires s.Some? ==> s.value.Valid()
  {
    forall px: nat, py: nat :: px < l.tw && py < l.th ==> CellShows(pixels, l, idx, px, py, Wanted(l, s, px, py))
  }

  ghost predicate AllValid(sprites: seq<Option<Sprite>>) {
    forall i :: 0 <= i < |sprites| && sprites[i].Some? ==> sprites[i].value.Valid()
  }

  function Entries(l: Layout, sprites: seq<Option<Sprite>>): seq<Entry> {
    if sprites == [] then [] else
    var n := |sprites| - 1;
    Entries(l, sprites[..n]) + if sprites[n].Some? then [Entry(n, l.X(n), l.Y(n))] else []
  }

  /** The picture after the first n sprites: each laid over the clear sheet in turn. */
  ghost function Sheet(l: Layout, sprites: seq<Option<Sprite>>): (nat, nat) -> seq<Byte>
    requires AllValid(sprites)
  {
    if sprites == [] then (x: nat, y: nat) => CLEAR else
    var n := |sprites| - 1;
    var f := Sheet(l, sprites[..n]);
    if sprites[n].None? then f
    else Laid(f, sprites[n].value, l.X(n), l.Y(n), Min(sprites[n].value.w, l.tw), 0, Min(sprites[n].value.h, l.th))
  }

  /** Later sprites never touch an earlier cell. */
  lemma {:induction false} SheetCell(l: Layout, sprites: seq<Option<Sprite>>, idx: nat, px: nat, py: nat)
    requires l.Valid() && AllValid(sprites) && |sprites| <= l.num && idx < l.num && px < l.tw && py < l.th
    ensures Sheet(l, sprites)(l.X(idx) + px, l.Y(idx) + py)
         == if idx < |sprites| then Wanted(l, sprites[idx], px, py) else CLEAR
    decreases |sprites|
  {
    if sprites != [] {
      var n := |sprites| - 1;
      SheetCell(l, sprites[..n], idx, px, py);
      if n != idx {
        CellsApart(l, n, idx);
      }
    }
  }

  /** The finished sheet, read cell by cell. */
  lemma ReadCell(pixels: seq<Byte>, l: Layout, sprites: seq<Option<Sprite>>, idx: nat)
    requires l.Valid() && AllValid(sprites) && |sprites| == l.num && idx < l.num
    requires Shows(pixels, l.W(), l.H(), Sheet(l, sprites))
    ensures CellHolds(pixels, l, idx, sprites[idx])
  {
    CellInside(l, idx);
    forall px: nat, py: nat | px < l.tw && py < l.th
      ensures CellShows(pixels, l, idx, px, py, Wanted(l, sprites[idx], px, py))
    {
      SheetCell(l, sprites, idx, px, py);
    }
  }

  lemma ClearSheet(pixels: seq<Byte>, l: Layout)
    requires l.Valid() && |pixels| == l.Bytes() && forall i :: 0 <= i < |pixels| ==> pixels[i] == 0
    ensures Shows(pixels, l.W(), l.H(), Sheet(l, []))
  {
    forall x, y | 0 <= x < l.W() && 0 <= y < l.H()
      ensures Offset(l.W(), x, y) + 4 <= |pixels| && PixelAt(pixels, l.W(), x, y) == CLEAR
    {
      OffsetInRange(l.W(), l.H(), x, y);
    }
  }

  /** One round of the packing loop. */
  method PlaceSprite(l: Layout, sheet: array<Byte>, sprites: seq<Option<Sprite>>, idx: nat)
    requires l.Valid() && AllValid(sprites) && |sprites| == l.num && idx < l.num
    requires Shows(sheet[..], l.W(), l.H(), Sheet(l, sprites[..idx]))
    modifies sheet
    ensures Shows(sheet[..], l.W(), l.H(), Sheet(l, sprites[..idx + 1]))
  {
    assert sprites[..idx + 1][..idx] == sprites[..idx];
    if sprites[idx].Some? {
      CellInside(l, idx);
      BlitSurfaceTile(sprites[idx].value, l.tw, l.th, sheet, l.W(), l.H(), l.X(idx), l.Y(idx),
                      Sheet(l, sprites[..idx]));
    }
  }

  /** Entry e names a copied sprite, and its place is where that sprite's pixels are. */
  ghost predicate Locates(pixels: seq<Byte>, l: Layout, sprites: seq<Option<Sprite>>, e: Entry)
    requires AllValid(sprites)
  {
    && e.idx < |sprites| && sprites[e.idx].Some?
    && forall px: nat, py: nat :: px < l.tw && py < l.th ==>
         PixelIs(pixels, l.W(), e.x + px, e.y + py, CellPixel(sprites[e.idx].value, l.tw, l.th, px, py))
  }

  ghost predicate PixelIs(pixels: seq<Byte>, w: nat, x: nat, y: nat, v: seq<Byte>) {
    Offset(w, x, y) + 4 <= |pixels| && PixelAt(pixels, w, x, y) == v
  }

  lemma {:induction false} EntriesAre(l: Layout, sprites: seq<Option<Sprite>>, k: nat)
    requires k < |Entries(l, sprites)|
    ensures var e := Entries(l, sprites)[k];
      e.idx < |sprites| && sprites[e.idx].Some? && e.x == l.X(e.idx) && e.y == l.Y(e.idx)
    decreases |sprites|
  {
    var n := |sprites| - 1;
    if k < |Entries(l, sprites[..n])| { EntriesAre(l, sprites[..n], k); }
  }

  /** Every copied sprite is listed. */
  lemma {:induction false} EntriesListAll(l: Layout, sprites: seq<Option<Sprite>>, i: nat) returns (k: nat)
    requires i < |sprites| && sprites[i].Some?
    ensures k < |Entries(l, sprites)| && Entries(l, sprites)[k].idx == i
    decreases |sprites|
  {
    var n := |sprites| - 1;
    if i < n { k := EntriesListAll(l, sprites[..n], i); } else { k := |Entries(l, sprites)| - 1; }
  }

  lemma IndexLocates(pixels: seq<Byte>, l: Layout, sprites: seq<Option<Sprite>>)
    requires AllValid(sprites) && forall i :: 0 <= i < |sprites| ==> CellHolds(pixels, l, i, sprites[i])
    ensures forall e :: e in Entries(l, sprites) ==> Locates(pixels, l, sprites, e)
    ensures forall i :: 0 <= i < |sprites| && sprites[i].Some? ==> Listed(Entries(l, sprites), i)
  {
    forall e | e in Entries(l, sprites) ensures Locates(pixels, l, sprites, e) {
      var k :| 0 <= k < |Entries(l, sprites)| && Entries(l, sprites)[k] == e;
      EntriesAre(l, sprites, k);
      forall px: nat, py: nat | px < l.tw && py < l.th
        ensures PixelIs(pixels, l.W(), e.x + px, e.y + py, CellPixel(sprites[e.idx].value, l.tw, l.th, px, py))
      {
        assert CellShows(pixels, l, e.idx, px, py, Wanted(l, sprites[e.idx], px, py));
      }
    }
    forall i | 0 <= i < |sprites| && sprites[i].Some? ensures Listed(Entries(l, sprites), i) {
      var k := EntriesListAll(l, sprites, i);
    }
  }

  ghost predicate Listed(index: seq<Entry>, i: nat) {
    exists k :: 0 <= k < |index| && index[k].idx == i
  }

  /** The packing loop: for any number of sprites of any sizes, every cell ends up holding
      its own sprite, and the index lists exactly the copied ones with their places. */
  method BuildAtlas(sprites: seq<Option<Sprite>>, tw: nat, th: nat) returns (pixels: seq<Byte>, index: seq<Entry>)
    requires sprites != [] && tw > 0 && th > 0 && AllValid(sprites)
    ensures var l := Layout(|sprites|, tw, th);
      && |pixels| == l.Bytes() && index == Entries(l, sprites)
      && (forall i :: 0 <= i < |sprites| ==> CellHolds(pixels, l, i, sprites[i]))
      && (forall e :: e in index ==> Locates(pixels, l, sprites, e))
      && (forall i :: 0 <= i < |sprites| && sprites[i].Some? ==> Listed(index, i))
  {
    var l := Layout(|sprites|, tw, th);
    var sheet := new Byte[l.W() * l.H() * 4](_ => 0);
    index := [];
    ClearSheet(sheet[..], l);
    for idx := 0 to |sprites|
      invariant Shows(sheet[..], l.W(), l.H(), Sheet(l, sprites[..idx]))
      invariant index == Entries(l, sprites[..idx])
    {
      PlaceSprite(l, sheet, sprites, idx);
      assert sprites[..idx + 1][..idx] == sprites[..idx];
      if sprites[idx].Some? {
        index := index + [Entry(idx, l.X(idx), l.Y(idx))];
      }
    }
    assert sprites[..|sprites|] == sprites;
    pixels := sheet[..];
    forall i | 0 <= i < |sprites| ensures CellHolds(pixels, l, i, sprites[i]) {
      ReadCell(pixels, l, sprites, i);
    }
    IndexLocates(pixels, l, sprites);
  }
}
