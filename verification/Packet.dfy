/** tock's first packet as it is written: a cursor running through a fixed byte buffer
    (server/server.cpp). */
module Packet {
  import opened Bytes
  import opened Screen
  import opened Wire
  import M = Model

  /** sizeof(buf) */
  const BUF: nat := 1024 * 1024

  /** The flags byte, or-ed together. */
  method HeaderBits(h: Header) returns (bits: Byte)
    ensures bits == Low(BitsByte(h))
  {
    var b := 0;
    if h.isActive { b := b + 1; }
    if h.noPlayer { b := b + 2; }
    if h.ingameTime { b := b + 4; }
    if h.graphics { b := b + 8; }
    bits := Low(b + 16 * (h.atlas % 16));
  }

  /** The fields at fixed places. */
  method WriteFixed(buf: array<Byte>, h: Header) returns (b: nat)
    requires buf.Length == BUF
    modifies buf
    ensures b == 17 && buf[..b] == FixedBytes(h)
  {
    var bits := HeaderBits(h);
    buf[0], buf[1], buf[2], buf[3] := 110, Low(h.clientCount), bits, if h.menu then 1 else 0;
    b := Put(buf, 4, Le32(h.timeLeft));
    buf[8], buf[9] := Low(h.dims.w), Low(h.dims.h);
    b := Put(buf, 10, Le16(Clamp16(h.cam.x)));
    b := Put(buf, b, Le16(Clamp16(h.cam.y)));
    b := Put(buf, b, Le16(Clamp16(h.cam.z)));
    buf[b] := NickLen(h.nick);
    b := b + 1;
  }

  /** The header and the name. */
  method WriteHeader(buf: array<Byte>, h: Header) returns (b: nat)
    requires buf.Length == BUF
    modifies buf
    ensures b == 17 + NickLen(h.nick) as int && buf[..b] == HeaderBytes(h)
  {
    b := WriteFixed(buf, h);
    CopyOut(buf, b, NickBytes(h.nick));
    b := b + NickLen(h.nick);
    assert buf[..b] == buf[..17] + buf[17..b];
  }

  /** memcpy of a number's bytes at b. */
  method Put(buf: array<Byte>, b: nat, bytes: seq<Byte>) returns (b': nat)
    requires b + |bytes| <= buf.Length && |bytes| <= 4
    modifies buf
    ensures b' == b + |bytes|
    ensures forall i :: 0 <= i < buf.Length ==> buf[i] == if b <= i < b' then bytes[i - b] else old(buf[i])
  {
    forall i | 0 <= i < |bytes| {
      buf[b + i] := bytes[i];
    }
    b' := b + |bytes|;
  }

  /** One record at b. */
  method WriteRec(buf: array<Byte>, b: nat, r: Rec) returns (b': nat)
    requires b + 9 <= buf.Length
    modifies buf
    ensures b' == b + 9 && buf[..b'] == old(buf[..b]) + RecBytes(r)
  {
    buf[b], buf[b + 1] := r.x, r.y;
    buf[b + 2] := r.tile.ch;
    buf[b + 3] := r.tile.bg;
    var bold := if r.tile.bold != 0 then 8 else 0;
    buf[b + 4] := (r.tile.fg + bold) % 16;
    buf[b + 5], buf[b + 6] := r.tile.texLo, r.tile.texHi;
    buf[b + 7], buf[b + 8] := r.tile.lowLo, r.tile.lowHi;
    b' := b + 9;
    assert buf[..b] == old(buf[..b]);
    assert buf[b..b + 9] == RecBytes(r);
    assert buf[..b'] == buf[..b] + buf[b..b + 9];
  }

  /** The dirty bytes after the walk reached (x, y): sent where passed, else as before. */
  ghost predicate Walked(mod: Mod, was: Mod, d: Dims, x: int, y: int)
    requires d.Valid()
  {
    && (forall x', y' :: d.Has(x', y') ==>
         0 <= At(d, x', y') < CELLS
         && mod[At(d, x', y')] == if Before(x', y', x, y) && was[At(d, x', y')] == 0 then 1 else was[At(d, x', y')])
    && forall t :: d.Total() <= t < CELLS ==> mod[t] == was[t]
  }

  lemma WalkStarts(was: Mod, d: Dims)
    requires d.Valid()
    ensures Walked(was, was, d, 0, 0)
  {
    forall x', y' | d.Has(x', y') ensures 0 <= At(d, x', y') < CELLS { AtInRange(d, x', y'); }
  }

  lemma WalkStep(mod: Mod, was: Mod, d: Dims, x: int, y: int)
    requires d.Valid() && d.Has(x, y) && Walked(mod, was, d, x, y)
    ensures 0 <= At(d, x, y) < CELLS && mod[At(d, x, y)] == was[At(d, x, y)]
    ensures Walked(if mod[At(d, x, y)] == 0 then mod[At(d, x, y) := 1] else mod, was, d, x + 1, y)
  {
    AtInRange(d, x, y);
    forall x', y' | d.Has(x', y') && (x' != x || y' != y) ensures At(d, x', y') != At(d, x, y) {
      if At(d, x', y') == At(d, x, y) { AtInjective(d, x', y', x, y); }
    }
  }

  lemma WalkRow(mod: Mod, was: Mod, d: Dims, y: int)
    requires d.Valid() && Walked(mod, was, d, d.w, y)
    ensures Walked(mod, was, d, 0, y + 1)
  {
  }

  lemma WalkEnds(mod: Mod, was: Mod, d: Dims)
    requires d.Valid() && Walked(mod, was, d, 0, d.h)
    ensures mod == MarkSent(was, d.Total())
  {
    forall t | 0 <= t < CELLS ensures mod[t] == MarkSent(was, d.Total())[t] {
      if t < d.Total() { AtSurjective(d, t); }
    }
  }

  /** Tiles walked on reaching (x, y). */
  function Steps(d: Dims, x: int, y: int): int { y * d.w + x }

  lemma StepsBack(d: Dims, x: int, y: int)
    ensures Steps(d, d.w, y - 1) == Steps(d, 0, y) && Steps(d, x, y) == Steps(d, x - 1, y) + 1
  {
  }

  lemma StepsBound(d: Dims, x: int, y: int)
    requires d.Valid() && d.Has(x, y)
    ensures Steps(d, x, y) < CELLS
  {
    MulMono(y, 255, d.w);
  }

  /** At most one record for each tile walked. */
  lemma {:induction false} RecordsBound(c: M.Client, d: Dims, x: int, y: int)
    requires d.Valid() && 0 <= x <= d.w && 0 <= y <= d.h && (y == d.h ==> x == 0)
    ensures |M.DirtyBefore(c, d, x, y)| <= Steps(d, x, y)
    decreases y, x
  {
    StepsBack(d, x, y);
    if x > 0 {
      RecordsBound(c, d, x - 1, y);
    } else if y > 0 {
      RecordsBound(c, d, d.w, y - 1);
    }
  }

  /** The packet and the dirty bytes when the walk has reached (x, y). */
  ghost predicate Reached(buf: array<Byte>, b: nat, mod: array<Byte>, c: M.Client, d: Dims, x: int, y: int,
                          pre: seq<Byte>)
    reads buf, mod
  {
    && buf.Length == BUF && b <= BUF && mod.Length == CELLS && |pre| <= 17 + 255
    && d.Valid() && 0 <= x <= d.w && 0 <= y <= d.h && (y == d.h ==> x == 0)
    && Walked(mod[..], c.mod, d, x, y) && buf[..b] == pre + RecsBytes(M.DirtyBefore(c, d, x, y))
  }

  lemma RowReached(buf: array<Byte>, b: nat, mod: array<Byte>, c: M.Client, d: Dims, y: int, pre: seq<Byte>)
    requires 0 <= y < d.h && Reached(buf, b, mod, c, d, d.w, y, pre)
    ensures Reached(buf, b, mod, c, d, 0, y + 1, pre)
  {
    WalkRow(mod[..], c.mod, d, y);
  }

  /** One tile of the walk. */
  method WriteTile(buf: array<Byte>, b: nat, mod: array<Byte>, src: array<Tile>, d: Dims, x: int, y: int,
                   ghost c: M.Client, ghost pre: seq<Byte>)
    returns (b': nat, full: bool)
    requires Reached(buf, b, mod, c, d, x, y, pre) && d.Has(x, y)
    requires buf != mod && src.Length == CELLS && src[..] == c.ownSc
    modifies buf, mod
    ensures !full && Reached(buf, b', mod, c, d, x + 1, y, pre)
  {
    AtInRange(d, x, y);
    WalkStep(mod[..], c.mod, d, x, y);
    RecordsBound(c, d, x, y);
    StepsBound(d, x, y);
    b', full := WriteIfDirty(buf, b, mod, src, x, y, x * d.h + y, pre, M.DirtyBefore(c, d, x, y));
  }

  /** The body of the loop. */
  method WriteIfDirty(buf: array<Byte>, b: nat, mod: array<Byte>, src: array<Tile>, x: Byte, y: Byte, tile: nat,
                      ghost pre: seq<Byte>, ghost rs: seq<Rec>)
    returns (b': nat, full: bool)
    requires buf.Length == BUF && mod.Length == CELLS && src.Length == CELLS && buf != mod && tile < CELLS
    requires b <= BUF && buf[..b] == pre + RecsBytes(rs) && |pre| <= 17 + 255 && |rs| < CELLS
    modifies buf, mod
    ensures !full && b' <= BUF
    ensures mod[..] == if old(mod[tile]) == 0 then old(mod[..])[tile := 1] else old(mod[..])
    ensures buf[..b'] == pre + RecsBytes(rs + if old(mod[tile]) == 0 then [Rec(x, y, src[tile])] else [])
  {
    b', full := b, false;
    assert rs + [] == rs;
    if mod[tile] == 0 {
      full := b + 9 > buf.Length;
      if !full {
        b' := WriteRec(buf, b, Rec(x, y, src[tile]));
        mod[tile] := 1;
        assert (rs + [Rec(x, y, src[tile])])[..|rs|] == rs;
      }
    }
  }

  /** The two nested loops over the screen. The way out when the packet is full is never
      taken. */
  method WriteTiles(buf: array<Byte>, b: nat, mod: array<Byte>, src: array<Tile>, d: Dims, ghost c: M.Client)
    returns (b': nat)
    requires buf.Length == BUF && b <= 17 + 255 && mod.Length == CELLS && src.Length == CELLS && buf != mod
    requires d.Fits() && src[..] == c.ownSc && mod[..] == c.mod
    modifies buf, mod
    ensures b' <= BUF && buf[..b'] == old(buf[..b]) + RecsBytes(M.Dirty(c, d))
    ensures mod[..] == MarkSent(c.mod, d.Total())
  {
    b' := b;
    ghost var pre := buf[..b];
    assert pre == pre + RecsBytes([]);
    if d.Valid() { WalkStarts(c.mod, d); }
    var y := 0;
    while y < d.h
      invariant 0 <= y && b' <= BUF
      invariant !d.Valid() ==> b' == b && buf[..b] == pre && mod[..] == c.mod
      invariant d.Valid() ==> y <= d.h && Reached(buf, b', mod, c, d, 0, y, pre)
    {
      if d.w > 0 {
        b' := WriteRow(buf, b', mod, src, d, y, c, pre);
      }
      y := y + 1;
    }
    if d.Valid() { WalkEnds(mod[..], c.mod, d); }
  }

  /** One row of tiles. */
  method WriteRow(buf: array<Byte>, b: nat, mod: array<Byte>, src: array<Tile>, d: Dims, y: int,
                  ghost c: M.Client, ghost pre: seq<Byte>)
    returns (b': nat)
    requires Reached(buf, b, mod, c, d, 0, y, pre) && y < d.h
    requires buf != mod && src.Length == CELLS && src[..] == c.ownSc
    modifies buf, mod
    ensures Reached(buf, b', mod, c, d, 0, y + 1, pre)
  {
    b' := b;
    var full := false;
    var x := 0;
    while x < d.w && !full
      invariant 0 <= x <= d.w && !full && unchanged(src)
      invariant Reached(buf, b', mod, c, d, x, y, pre)
    {
      b', full := WriteTile(buf, b', mod, src, d, x, y, c, pre);
      x := x + 1;
    }
    RowReached(buf, b', mod, c, d, y, pre);
  }

  /** Everything tock writes for its first packet, and what it marks sent. */
  method WriteUpdate(h: Header, mod: array<Byte>, src: array<Tile>, ghost c: M.Client) returns (packet: seq<Byte>)
    requires mod.Length == CELLS && src.Length == CELLS && h.dims.Fits()
    requires src[..] == c.ownSc && mod[..] == c.mod
    modifies mod
    ensures packet == EncodeUpdate(h, M.Dirty(c, h.dims)) && |packet| <= BUF
    ensures mod[..] == MarkSent(c.mod, h.dims.Total())
  {
    var buf := new Byte[BUF](_ => 0);
    var b := WriteHeader(buf, h);
    b := WriteTiles(buf, b, mod, src, h.dims, c);
    packet := buf[..b];
  }
}
