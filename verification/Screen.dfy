/** Tile buffers: the eight-byte screen tiles, the per-client dirty bytes and the
    x-major tile index every buffer shares (server/webfort.hpp, server/server.hpp). */
module Screen {
  import opened Bytes

  /** One eight-byte entry of `sc`, `own_sc` or `own_sc_prev`. */
  datatype Tile = Tile(ch: Byte, fg: Byte, bg: Byte, bold: Byte,
                       texLo: Byte, texHi: Byte, lowLo: Byte, lowHi: Byte)

  const BLANK := Tile(0, 0, 0, 0, 0, 0, 0, 0)
  const CELLS: nat := 65536

  type Buffer = s: seq<Tile> | |s| == CELLS witness seq(CELLS, _ => BLANK)

  /** `Client::mod`: zero marks a tile that must be sent. */
  type Mod = s: seq<Byte> | |s| == CELLS witness seq(CELLS, _ => 0)

  function BlankBuffer(): Buffer { seq(CELLS, _ => BLANK) }

  function AllDirty(): Mod { seq(CELLS, _ => 0) }

  datatype Dims = Dims(w: int, h: int) {
    /** What the capture code accepts. */
    predicate Valid() { 0 < w <= 256 && 0 < h <= 256 }

    /** What the server's fixed-size buffers can hold. */
    predicate Fits() { w <= 256 && h <= 256 }

    /** What one header byte per dimension can carry. */
    predicate Sendable() { 0 < w < 256 && 0 < h < 256 }

    /** Number of tiles; zero when there is nothing to draw. */
    function Total(): nat {
      if Valid() then Area(w, h) else 0
    }

    predicate Has(x: int, y: int) { 0 <= x < w && 0 <= y < h }
  }

  function Area(w: int, h: int): (n: nat)
    requires 0 < w <= 256 && 0 < h <= 256
    ensures n == w * h && n <= CELLS
  {
    assert w * h <= 256 * h <= 65536;
    w * h
  }

  /** Buffers are laid out column by column. */
  function At(d: Dims, x: int, y: int): int {
    x * d.h + y
  }

  /** Row by row, whether (px, py) comes before (x, y). */
  predicate Before(px: int, py: int, x: int, y: int) {
    py < y || (py == y && px < x)
  }

  lemma AtInRange(d: Dims, x: int, y: int)
    requires d.Valid() && d.Has(x, y)
    ensures 0 <= At(d, x, y) < d.Total() <= CELLS
  {
    assert x * d.h <= (d.w - 1) * d.h;
  }

  /** A later column starts past every tile of an earlier one. */
  lemma ColumnsInOrder(d: Dims, x: int, y: int, x': int, y': int)
    requires d.Has(x, y) && d.Has(x', y')
    ensures x < x' ==> At(d, x, y) < At(d, x', y')
  {
    if x < x' {
      assert (x + 1) * d.h <= x' * d.h;
    }
  }

  lemma AtInjective(d: Dims, x: int, y: int, x': int, y': int)
    requires d.Has(x, y) && d.Has(x', y') && At(d, x, y) == At(d, x', y')
    ensures x == x' && y == y'
  {
    ColumnsInOrder(d, x, y, x', y');
    ColumnsInOrder(d, x', y', x, y);
  }

  /** Every index below the total is the place of some tile. */
  lemma AtSurjective(d: Dims, t: int)
    requires d.Valid() && 0 <= t < d.Total()
    ensures d.Has(t / d.h, t % d.h) && At(d, t / d.h, t % d.h) == t
  {
    var q, r := t / d.h, t % d.h;
    assert t == q * d.h + r && 0 <= r < d.h && 0 <= q;
    MulMono(d.w, q, d.h);
  }

  /** What the browser knows of a tile once its record is decoded. */
  datatype Cell = Cell(ch: Byte, bg: int, text: bool, fg: int, tex: int, lower: int)

  /** tock's colour byte: three low bits and the bold flag folded together. */
  function WireFg(t: Tile): Byte {
    (t.fg + (if t.bold != 0 then 8 else 0)) % 16
  }

  /** The full encoding of a tile, as the browser ends up reading it. */
  function Enc(t: Tile): Cell {
    Cell(t.ch, t.bg % 16, t.bg / 64 % 2 == 1, WireFg(t),
         JsUint16(t.texLo, t.texHi), JsUint16(t.lowLo, t.lowHi))
  }

  /** `memcpy` of the first n tiles. */
  function Overwrite(dst: Buffer, src: Buffer, n: nat): Buffer
    requires n <= CELLS
  {
    src[..n] + dst[n..]
  }

  /** The delta loop: dirty every tile below n whose eight bytes differ. */
  function Invalidate(mod: Mod, a: Buffer, b: Buffer, n: nat): (m: Mod)
    requires n <= CELLS
  {
    seq(CELLS, t requires 0 <= t < CELLS => if t < n && a[t] != b[t] then 0 else mod[t])
  }

  /** tock's effect on the dirty bytes: everything it walked over is clean. */
  function MarkSent(mod: Mod, n: nat): (m: Mod)
    requires n <= CELLS
  {
    seq(CELLS, t requires 0 <= t < CELLS => if t < n && mod[t] == 0 then 1 else mod[t])
  }

  /** memcpy of whole tiles. */
  method CopyTiles(dst: array<Tile>, src: array<Tile>, n: nat)
    requires dst.Length == CELLS && src.Length == CELLS && n <= CELLS && dst != src
    modifies dst
    ensures dst[..] == Overwrite(old(dst[..]), src[..], n)
  {
    forall t | 0 <= t < n {
      dst[t] := src[t];
    }
  }

  /** The memcmp loop: a tile that differs has to be sent again. */
  method MarkDifferences(mod: array<Byte>, a: array<Tile>, b: array<Tile>, n: nat)
    requires mod.Length == CELLS && a.Length == CELLS && b.Length == CELLS && n <= CELLS
    modifies mod
    ensures mod[..] == Invalidate(old(mod[..]), a[..], b[..], n)
  {
    for t := 0 to n
      invariant mod[..] == Invalidate(old(mod[..]), a[..], b[..], t)
    {
      if a[t] != b[t] {
        mod[t] := 0;
      }
    }
  }
}
