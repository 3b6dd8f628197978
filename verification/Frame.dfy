/** Composing the game's screen into eight-byte tiles (server/webfort.cpp,
    fill_screen_buffer). */
module Frame {
  import opened Bytes
  import opened Screen

  datatype Rgb = Rgb(r: Byte, g: Byte, b: Byte)

  /** One tile of gps->screen or gps->screen_top. */
  datatype Glyph = Glyph(ch: Byte, fg: Rgb, bg: Rgb)

  const NO_GLYPH := Glyph(0, Rgb(0, 0, 0), Rgb(0, 0, 0))

  type Glyphs = s: seq<Glyph> | |s| == CELLS witness seq(CELLS, _ => NO_GLYPH)
  type Texpos = s: seq<int> | |s| == CELLS witness seq(CELLS, _ => 0)
  type Palette = s: seq<Rgb> | |s| == 16 witness seq(16, _ => Rgb(0, 0, 0))
  type Font = s: seq<int> | |s| == 256 witness seq(256, _ => 0)

  datatype Mouse = Mouse(x: int, y: int, preciseX: int, preciseY: int)

  /** The part of gps that rendering writes; missing texpos arrays are None. */
  datatype Gps = Gps(screen: Glyphs, top: Glyphs, topInUse: bool,
                     texpos: Option<Texpos>, texposLower: Option<Texpos>, mouse: Mouse)

  /** What stays put while frames are composed: size, palette, font and text areas. */
  datatype Setting = Setting(dims: Dims, palette: Palette, font: Option<Font>, isText: (int, int) -> bool)

  function Sq(x: int): int { x * x }

  function Distance(a: Rgb, b: Rgb): int {
    Sq(a.r - b.r) + Sq(a.g - b.g) + Sq(a.b - b.b)
  }

  /** Index of the first nearest of the first n palette colours. */
  function Nearest(p: Palette, c: Rgb, n: nat): (k: nat)
    requires 1 <= n <= 16
    ensures k < n
  {
    if n == 1 then 0 else
    var k := Nearest(p, c, n - 1);
    if Distance(p[n - 1], c) < Distance(p[k], c) then n - 1 else k
  }

  /** No colour is nearer, and no earlier colour is as near. */
  lemma {:induction false} NearestIsFirstMinimum(p: Palette, c: Rgb, n: nat)
    requires 1 <= n <= 16
    ensures forall j :: 0 <= j < n ==> Distance(p[Nearest(p, c, n)], c) <= Distance(p[j], c)
    ensures forall j :: 0 <= j < Nearest(p, c, n) ==> Distance(p[Nearest(p, c, n)], c) < Distance(p[j], c)
  {
    if n > 1 { NearestIsFirstMinimum(p, c, n - 1); }
  }

  lemma DistanceFits(a: Rgb, b: Rgb)
    ensures 0 <= Distance(a, b) < 0x7FFF_FFFF
  {
    SqRange(a.r - b.r);
    SqRange(a.g - b.g);
    SqRange(a.b - b.b);
  }

  lemma SqRange(x: int)
    requires -255 <= x <= 255
    ensures 0 <= Sq(x) <= 65025
  {
  }

  /** match_color: a linear scan from INT32_MAX keeps the first minimum. */
  method MatchColor(p: Palette, c: Rgb) returns (best: nat)
    ensures best == Nearest(p, c, 16)
  {
    best := 0;
    var bestD := 0x7FFF_FFFF;
    for i := 0 to 16
      invariant i == 0 ==> best == 0 && bestD == 0x7FFF_FFFF
      invariant i > 0 ==> best == Nearest(p, c, i) && bestD == Distance(p[best], c)
    {
      DistanceFits(p[i], c);
      var d := Distance(p[i], c);
      if d < bestD {
        bestD := d;
        best := i;
      }
    }
  }

  /** The first character drawn with each font texture, among the first n. */
  function FontMap(f: Font, n: nat): map<int, Byte>
    requires n <= 256
  {
    if n <= 1 then map[] else
    var m := FontMap(f, n - 1);
    if f[n - 1] > 0 && f[n - 1] !in m then m[f[n - 1] := n - 1] else m
  }

  lemma {:induction false} FontMapFirst(f: Font, n: nat, tp: int)
    requires n <= 256
    ensures tp in FontMap(f, n) <==> tp > 0 && exists c :: 1 <= c < n && f[c] == tp
    ensures tp in FontMap(f, n) ==>
      var c := FontMap(f, n)[tp];
      1 <= c < n && f[c] == tp && forall j :: 1 <= j < c ==> f[j] != tp
  {
    if n > 1 { FontMapFirst(f, n - 1, tp); }
  }

  method BuildFontMap(font: Option<Font>) returns (m: map<int, Byte>)
    ensures m == FontChars(font)
  {
    m := map[];
    if font.Some? {
      for ch := 1 to 256
        invariant m == FontMap(font.value, ch)
      {
        var tp := font.value[ch];
        if tp > 0 && tp !in m {
          m := m[tp := ch];
        }
      }
    }
  }

  function FontChars(font: Option<Font>): map<int, Byte> {
    if font.Some? then FontMap(font.value, 256) else map[]
  }

  /** Texture numbers that do not fit sixteen bits are sent as none. */
  function Clip(v: int): int { if 0 < v < 65536 then v else 0 }

  function TexAt(a: Option<Texpos>, t: nat): int
    requires t < CELLS
  {
    if a.Some? then a.value[t] else 0
  }

  /** The glyph that shows: the overlay where it has text, the base screen elsewhere. */
  function Shown(g: Gps, t: nat): Glyph
    requires t < CELLS
  {
    if g.topInUse && g.top[t].ch > 32 then g.top[t] else g.screen[t]
  }

  function CharAt(g: Gps, chars: map<int, Byte>, t: nat): Byte
    requires t < CELLS
  {
    var c := Shown(g, t).ch;
    var tp := TexAt(g.texpos, t);
    if c <= 32 && tp > 0 && tp in chars then chars[tp] else c
  }

  function Compose(g: Gps, st: Setting, x: int, y: int): Tile
    requires st.dims.Valid() && st.dims.Has(x, y)
  {
    AtInRange(st.dims, x, y);
    var t := At(st.dims, x, y);
    var fg, bg := Nearest(st.palette, Shown(g, t).fg, 16), Nearest(st.palette, Shown(g, t).bg, 16);
    var tp, tpl := Clip(TexAt(g.texpos, t)), Clip(TexAt(g.texposLower, t));
    Tile(CharAt(g, FontChars(st.font), t), fg % 8, bg % 8 + (if st.isText(x, y) then 64 else 0),
         if fg >= 8 then 1 else 0,
         tp % 256, tp / 256, tpl % 256, tpl / 256)
  }

  /** The whole composed frame, in buffer order; cells past the screen are blank. */
  function FrameOf(g: Gps, st: Setting): Buffer {
    seq(CELLS, t requires 0 <= t < CELLS =>
      if t < st.dims.Total() then ComposeAt(g, st, t) else BLANK)
  }

  function ComposeAt(g: Gps, st: Setting, t: int): Tile
    requires 0 <= t < st.dims.Total()
  {
    AtSurjective(st.dims, t);
    Compose(g, st, t / st.dims.h, t % st.dims.h)
  }

  lemma FrameAt(g: Gps, st: Setting, x: int, y: int)
    requires st.dims.Valid() && st.dims.Has(x, y)
    ensures 0 <= At(st.dims, x, y) < st.dims.Total() && FrameOf(g, st)[At(st.dims, x, y)] == Compose(g, st, x, y)
  {
    AtInRange(st.dims, x, y);
    var t := At(st.dims, x, y);
    AtSurjective(st.dims, t);
    AtInjective(st.dims, t / st.dims.h, t % st.dims.h, x, y);
  }

  lemma FgSurvives(fg: int)
    requires 0 <= fg < 16
    ensures (fg % 8 + (if fg >= 8 then 8 else 0)) % 16 == fg
  {
  }

  lemma BgSurvives(bg: int, text: bool)
    requires 0 <= bg < 16
    ensures var b := bg % 8 + (if text then 64 else 0); b % 16 == bg % 8 && (b / 64 % 2 == 1) == text
  {
  }

  /** End to end, what a browser decodes for a tile: the shown character, the nearest of
      all sixteen foregrounds, the nearest background without its bright bit, the text
      flag, and both texture numbers when they fit. */
  lemma ComposedCell(g: Gps, st: Setting, x: int, y: int)
    requires st.dims.Valid() && st.dims.Has(x, y)
    ensures 0 <= At(st.dims, x, y) < CELLS
    ensures var t := At(st.dims, x, y);
      Enc(Compose(g, st, x, y))
      == Cell(CharAt(g, FontChars(st.font), t), Nearest(st.palette, Shown(g, t).bg, 16) % 8, st.isText(x, y),
              Nearest(st.palette, Shown(g, t).fg, 16), Clip(TexAt(g.texpos, t)), Clip(TexAt(g.texposLower, t)))
  {
    AtInRange(st.dims, x, y);
    var t := At(st.dims, x, y);
    FgSurvives(Nearest(st.palette, Shown(g, t).fg, 16));
    BgSurvives(Nearest(st.palette, Shown(g, t).bg, 16), st.isText(x, y));
  }

  // ----- what shows on a tile, in the game's own terms -----

  /** k is the first of the palette entries nearest to c, by squared differences. */
  ghost predicate NearestTo(p: Palette, c: Rgb, k: int) {
    && 0 <= k < 16
    && (forall j :: 0 <= j < 16 ==> Apart(p[k], c) <= Apart(p[j], c))
    && (forall j :: 0 <= j < k ==> Apart(p[k], c) < Apart(p[j], c))
  }

  ghost function Apart(a: Rgb, c: Rgb): int {
    (a.r - c.r) * (a.r - c.r) + (a.g - c.g) * (a.g - c.g) + (a.b - c.b) * (a.b - c.b)
  }

  lemma NearestIsNearestTo(p: Palette, c: Rgb)
    ensures NearestTo(p, c, Nearest(p, c, 16))
  {
    NearestIsFirstMinimum(p, c, 16);
    assert forall j :: 0 <= j < 16 ==> Apart(p[j], c) == Distance(p[j], c);
  }

  /** Where the overlay is in use and has text, its character and its colours are what the
      browser decodes; the background loses its bright bit. */
  lemma OverlayShows(g: Gps, st: Setting, x: int, y: int, t: int) returns (bg: int)
    requires st.dims.Valid() && st.dims.Has(x, y) && t == At(st.dims, x, y) && 0 <= t < CELLS
    requires g.topInUse && g.top[t].ch > 32
    ensures var c := Enc(Compose(g, st, x, y));
      && c.ch == g.top[t].ch && NearestTo(st.palette, g.top[t].fg, c.fg)
      && NearestTo(st.palette, g.top[t].bg, bg) && c.bg == bg % 8
  {
    bg := Nearest(st.palette, g.top[t].bg, 16);
    ComposedCell(g, st, x, y);
    NearestIsNearestTo(st.palette, g.top[t].fg);
    NearestIsNearestTo(st.palette, g.top[t].bg);
  }

  /** Everywhere else the base tile's colours are. */
  lemma BaseColoursShow(g: Gps, st: Setting, x: int, y: int, t: int) returns (bg: int)
    requires st.dims.Valid() && st.dims.Has(x, y) && t == At(st.dims, x, y) && 0 <= t < CELLS
    requires !(g.topInUse && g.top[t].ch > 32)
    ensures var c := Enc(Compose(g, st, x, y));
      && NearestTo(st.palette, g.screen[t].fg, c.fg)
      && NearestTo(st.palette, g.screen[t].bg, bg) && c.bg == bg % 8
  {
    bg := Nearest(st.palette, g.screen[t].bg, 16);
    ComposedCell(g, st, x, y);
    NearestIsNearestTo(st.palette, g.screen[t].fg);
    NearestIsNearestTo(st.palette, g.screen[t].bg);
  }

  /** ch is the first character the font draws with texture tp. */
  ghost predicate FirstDrawn(f: Font, tp: int, ch: int) {
    1 <= ch < 256 && f[ch] == tp && forall j :: 1 <= j < ch ==> f[j] != tp
  }

  /** The tile's texture is one of the font's. */
  ghost predicate DrawnByFont(g: Gps, st: Setting, t: nat)
    requires t < CELLS
  {
    && g.texpos.Some? && g.texpos.value[t] > 0 && st.font.Some?
    && exists k :: 1 <= k < 256 && st.font.value[k] == g.texpos.value[t]
  }

  /** And the character is the base's own if it has text, else the first font character drawn
      with the tile's texture, else the base's after all. */
  lemma BaseCharacterShows(g: Gps, st: Setting, x: int, y: int, t: int)
    requires st.dims.Valid() && st.dims.Has(x, y) && t == At(st.dims, x, y) && 0 <= t < CELLS
    requires !(g.topInUse && g.top[t].ch > 32)
    ensures g.screen[t].ch > 32 || !DrawnByFont(g, st, t) ==> Enc(Compose(g, st, x, y)).ch == g.screen[t].ch
    ensures g.screen[t].ch <= 32 && DrawnByFont(g, st, t) ==>
      FirstDrawn(st.font.value, g.texpos.value[t], Enc(Compose(g, st, x, y)).ch)
  {
    ComposedCell(g, st, x, y);
    if st.font.Some? && g.texpos.Some? {
      FontMapFirst(st.font.value, 256, g.texpos.value[t]);
    }
  }

  /** The textures go along whatever shows, unless they are missing or do not fit sixteen bits;
      and the text flag is the tile's. */
  lemma TexturesShow(g: Gps, st: Setting, x: int, y: int, t: int)
    requires st.dims.Valid() && st.dims.Has(x, y) && t == At(st.dims, x, y) && 0 <= t < CELLS
    ensures var c := Enc(Compose(g, st, x, y));
      && c.tex == (if g.texpos.Some? && 0 < g.texpos.value[t] < 65536 then g.texpos.value[t] else 0)
      && c.lower == (if g.texposLower.Some? && 0 < g.texposLower.value[t] < 65536 then g.texposLower.value[t] else 0)
      && c.text == st.isText(x, y)
  {
    ComposedCell(g, st, x, y);
  }

  /** fill_screen_buffer: column by column into dst, leaving the rest of it alone. */
  method FillScreenBuffer(g: Gps, st: Setting, dst: array<Tile>) returns (ok: bool)
    requires dst.Length == CELLS
    modifies dst
    ensures ok == st.dims.Valid()
    ensures dst[..] == Overwrite(old(dst[..]), FrameOf(g, st), st.dims.Total())
  {
    if !st.dims.Valid() {
      return false;
    }
    var chars := BuildFontMap(st.font);
    var d := st.dims;
    var base := 0;   // x * dimy
    for x := 0 to d.w
      invariant base == x * d.h
      invariant forall t :: 0 <= t < CELLS ==> dst[t] == if t < base then FrameOf(g, st)[t] else old(dst[t])
    {
      FillColumn(g, st, chars, dst, x, base);
      NextColumn(d, x);
      base := base + d.h;
    }
    ok := true;
  }

  lemma NextColumn(d: Dims, x: int)
    ensures (x + 1) * d.h == x * d.h + d.h
  {
  }

  /** The inner loop: one column of tiles. */
  method FillColumn(g: Gps, st: Setting, chars: map<int, Byte>, dst: array<Tile>, x: int, base: int)
    requires dst.Length == CELLS && st.dims.Valid() && 0 <= x < st.dims.w && base == x * st.dims.h
    requires chars == FontChars(st.font)
    modifies dst
    ensures forall t :: 0 <= t < CELLS ==>
      dst[t] == if base <= t < base + st.dims.h then FrameOf(g, st)[t] else old(dst[t])
  {
    for y := 0 to st.dims.h
      invariant forall t :: 0 <= t < CELLS ==>
        dst[t] == if base <= t < base + y then FrameOf(g, st)[t] else old(dst[t])
    {
      FrameAt(g, st, x, y);
      assert At(st.dims, x, y) == base + y;
      var tile := ComposeTile(g, st, chars, x, y, base + y);
      dst[base + y] := tile;
    }
  }

  /** The body of the loop for one tile. */
  method ComposeTile(g: Gps, st: Setting, chars: map<int, Byte>, x: int, y: int, t: int) returns (tile: Tile)
    requires st.dims.Valid() && st.dims.Has(x, y) && chars == FontChars(st.font)
    requires t == At(st.dims, x, y) && 0 <= t < CELLS
    ensures tile == Compose(g, st, x, y)
  {
    var s := g.screen[t];
    var ch, fg, bg := s.ch, s.fg, s.bg;
    if g.topInUse && g.top[t].ch > 32 {
      ch, fg, bg := g.top[t].ch, g.top[t].fg, g.top[t].bg;
    }
    if ch <= 32 && g.texpos.Some? {
      var tp := g.texpos.value[t];
      if tp > 0 && tp in chars {
        ch := chars[tp];
      }
    }
    var fgIdx := MatchColor(st.palette, fg);
    var bgIdx := MatchColor(st.palette, bg);
    var tp, tpl := Clip(TexAt(g.texpos, t)), Clip(TexAt(g.texposLower, t));
    var flags := bgIdx % 8;
    if st.isText(x, y) {
      flags := flags + 64;
    }
    tile := Tile(ch, fgIdx % 8, flags, if fgIdx >= 8 then 1 else 0, tp % 256, tp / 256, tpl % 256, tpl / 256);
  }
}
