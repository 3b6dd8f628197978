/** The update packet (opcode 110): what tock writes (server/server.cpp) and what the
    browser's onMessage reads back (static/js/webfort.js). */
module Wire {
  import opened Bytes
  import opened Screen
  import Name

  datatype Pos = Pos(x: int, y: int, z: int)

  /** Everything tock puts in front of the tile records. */
  datatype Header = Header(clientCount: nat, isActive: bool, noPlayer: bool, ingameTime: bool,
                           graphics: bool, atlas: int, menu: bool, timeLeft: int,
                           dims: Dims, cam: Pos, nick: seq<Byte>)
  {
    /** The ranges the C++ variables have, and a C string holding no NUL. */
    predicate Valid() {
      && 0 <= atlas < 16 && InInt32(timeLeft)
      && forall i :: 0 <= i < |nick| ==> nick[i] != 0
    }
  }

  /** One changed tile as tock finds it. */
  datatype Rec = Rec(x: Byte, y: Byte, tile: Tile)

  /** One changed tile as the browser reads it. */
  datatype Patch = Patch(x: int, y: int, cell: Cell)

  datatype Update = Update(players: int, isActive: bool, noPlayer: bool, ingameTime: bool,
                           graphics: bool, atlas: int, menu: bool, timeLeft: int,
                           dims: Dims, cam: Pos, nick: seq<Byte>, name: Option<seq<int>>, patches: seq<Patch>)

  function Flag(b: bool, v: int): int { if b then v else 0 }

  function BitsByte(h: Header): int {
    Flag(h.isActive, 1) + Flag(h.noPlayer, 2) + Flag(h.ingameTime, 4) + Flag(h.graphics, 8) + 16 * (h.atlas % 16)
  }

  function NickLen(nick: seq<Byte>): Byte { Low(|nick| + 1) }

  /** The copied bytes: a prefix of the C string, NUL included when it fits. */
  function NickBytes(nick: seq<Byte>): (s: seq<Byte>)
    ensures |s| == NickLen(nick)
  {
    (nick + [0])[..NickLen(nick)]
  }

  function FixedBytes(h: Header): (s: seq<Byte>)
    ensures |s| == 17
  {
    var t := Le32(h.timeLeft);
    var x, y, z := Le16(Clamp16(h.cam.x)), Le16(Clamp16(h.cam.y)), Le16(Clamp16(h.cam.z));
    [110, Low(h.clientCount), Low(BitsByte(h)), if h.menu then 1 else 0, t[0], t[1], t[2], t[3],
     Low(h.dims.w), Low(h.dims.h), x[0], x[1], y[0], y[1], z[0], z[1], NickLen(h.nick)]
  }

  function HeaderBytes(h: Header): (s: seq<Byte>)
    ensures |s| == 17 + NickLen(h.nick)
  {
    FixedBytes(h) + NickBytes(h.nick)
  }

  function RecBytes(r: Rec): (s: seq<Byte>)
    ensures |s| == 9
  {
    [r.x, r.y, r.tile.ch, r.tile.bg, WireFg(r.tile), r.tile.texLo, r.tile.texHi, r.tile.lowLo, r.tile.lowHi]
  }

  function RecsBytes(rs: seq<Rec>): (s: seq<Byte>)
    ensures |s| == 9 * |rs|
  {
    if rs == [] then [] else RecsBytes(rs[..|rs| - 1]) + RecBytes(rs[|rs| - 1])
  }

  function EncodeUpdate(h: Header, rs: seq<Rec>): seq<Byte> {
    HeaderBytes(h) + RecsBytes(rs)
  }

  // ----- the browser -----

  /** Bytes from i up to the first NUL, or up to the limit. */
  function UntilNul(data: seq<Byte>, i: nat, limit: nat): seq<Byte>
    requires i <= limit <= |data|
    decreases limit - i
  {
    if i == limit || data[i] == 0 then [] else [data[i]] + UntilNul(data, i + 1, limit)
  }

  function ReadRec(data: seq<Byte>, k: nat): Patch
    requires k + 9 <= |data|
  {
    Patch(data[k], data[k + 1],
          Cell(data[k + 2], data[k + 3] % 16, data[k + 3] / 64 % 2 == 1, data[k + 4],
               JsUint16(data[k + 5], data[k + 6]), JsUint16(data[k + 7], data[k + 8])))
  }

  function ReadRecs(data: seq<Byte>, k: nat): seq<Patch>
    requires k <= |data| && (|data| - k) % 9 == 0
    decreases |data| - k
  {
    if k == |data| then [] else [ReadRec(data, k)] + ReadRecs(data, k + 9)
  }

  /** Reads past the end of the packet make the whole reading undefined. */
  predicate Readable(data: seq<Byte>) {
    |data| >= 17 && data[0] == 110 && 17 + data[16] <= |data| && (|data| - 17 - data[16]) % 9 == 0
  }

  /** The fields at fixed places. */
  function ReadHead(data: seq<Byte>): Update
    requires Readable(data)
  {
    var b := data[2];
    Update(data[1] % 128, b % 2 == 1, b / 2 % 2 == 1, b / 4 % 2 == 1, b / 8 % 2 == 1, b / 16 % 16,
           data[3] % 2 == 1, JsInt32(data[4], data[5], data[6], data[7]), Dims(data[8], data[9]),
           Pos(JsInt16(data[10], data[11]), JsInt16(data[12], data[13]), JsInt16(data[14], data[15])), [], None, [])
  }

  /** What onMessage gets out of a packet. A name that does not decode ends it before any
      tile is read. */
  function DecodeUpdate(data: seq<Byte>): Update
    requires Readable(data)
  {
    var tiles := 17 + data[16] as int;
    var nick := UntilNul(data, 17, tiles);
    var name := Name.Decode(nick);
    ReadHead(data).(nick := nick, name := name, patches := if name.Some? then ReadRecs(data, tiles) else [])
  }

  /** onMessage's loop over the name. */
  method ReadNick(data: seq<Byte>, nickSize: nat) returns (activeNick: seq<Byte>)
    requires 17 + nickSize <= |data|
    ensures activeNick == UntilNul(data, 17, 17 + nickSize)
  {
    activeNick := [];
    var i := 17;
    while i < 17 + nickSize && data[i] != 0
      invariant 17 <= i <= 17 + nickSize
      invariant UntilNul(data, 17, 17 + nickSize) == activeNick + UntilNul(data, i, 17 + nickSize)
    {
      activeNick := activeNick + [data[i]];
      i := i + 1;
    }
  }

  /** renderUpdate's loop over the records, nine bytes at a time. */
  method ReadTiles(data: seq<Byte>, offset: nat) returns (patches: seq<Patch>)
    requires offset <= |data| && (|data| - offset) % 9 == 0
    ensures patches == ReadRecs(data, offset)
  {
    patches := [];
    var k := offset;
    while k < |data|
      invariant offset <= k <= |data| && (|data| - k) % 9 == 0
      invariant ReadRecs(data, offset) == patches + ReadRecs(data, k)
    {
      patches := patches + [ReadRec(data, k)];
      k := k + 9;
    }
  }

  /** onMessage, update branch. */
  method OnUpdateMessage(data: seq<Byte>) returns (u: Update)
    requires Readable(data)
    ensures u == DecodeUpdate(data)
  {
    var nickSize: int := data[16];
    var activeNick := ReadNick(data, nickSize);
    var name := Name.Decode(activeNick);
    if name.None? {
      return ReadHead(data).(nick := activeNick);
    }
    var patches := ReadTiles(data, nickSize + 17);
    u := ReadHead(data).(nick := activeNick, name := name, patches := patches);
  }

  // ----- round trip -----

  function Patches(rs: seq<Rec>): seq<Patch> {
    seq(|rs|, i requires 0 <= i < |rs| => Patch(rs[i].x, rs[i].y, Enc(rs[i].tile)))
  }

  /** What survives of the holder's name: all of it up to 254 bytes, otherwise a
      prefix whose length is the wrapped length byte. */
  function NickSent(nick: seq<Byte>): seq<Byte> {
    if |nick| <= 254 then nick else nick[..NickLen(nick)]
  }

  /** Whether a browser gets past the holder's name to the tiles. */
  predicate Decodes(nick: seq<Byte>) {
    Name.Decode(NickSent(nick)).Some?
  }

  function Expected(h: Header, rs: seq<Rec>): Update {
    Update(h.clientCount % 128, h.isActive, h.noPlayer, h.ingameTime, h.graphics, h.atlas, h.menu, h.timeLeft,
           h.dims, Pos(Clamp16(h.cam.x), Clamp16(h.cam.y), Clamp16(h.cam.z)), NickSent(h.nick),
           Name.Decode(NickSent(h.nick)), if Decodes(h.nick) then Patches(rs) else [])
  }

  lemma {:induction false} UntilNulReads(data: seq<Byte>, i: nat, limit: nat, n: nat)
    requires i + n <= limit <= |data|
    requires forall j :: i <= j < i + n ==> data[j] != 0
    requires i + n == limit || data[i + n] == 0
    ensures UntilNul(data, i, limit) == data[i..i + n]
    decreases n
  {
    if n > 0 {
      UntilNulReads(data, i + 1, limit, n - 1);
    }
  }

  lemma {:induction false} RecsBytesAt(rs: seq<Rec>, i: nat)
    requires i < |rs|
    ensures RecsBytes(rs)[9 * i..9 * i + 9] == RecBytes(rs[i])
  {
    var n := |rs| - 1;
    if i < n {
      RecsBytesAt(rs[..n], i);
      assert RecsBytes(rs)[9 * i..9 * i + 9] == RecsBytes(rs[..n])[9 * i..9 * i + 9];
    }
  }

  lemma ReadRecOf(data: seq<Byte>, k: nat, r: Rec)
    requires k + 9 <= |data| && data[k..k + 9] == RecBytes(r)
    ensures ReadRec(data, k) == Patch(r.x, r.y, Enc(r.tile))
  {
    var b := RecBytes(r);
    var d := data[k..k + 9];
    assert d[0] == data[k] && d[1] == data[k + 1] && d[2] == data[k + 2] && d[3] == data[k + 3] && d[4] == data[k + 4];
    assert d[5] == data[k + 5] && d[6] == data[k + 6] && d[7] == data[k + 7] && d[8] == data[k + 8];
  }

  lemma ReadRecIn(pre: seq<Byte>, body: seq<Byte>, j: nat, r: Rec)
    requires j + 9 <= |body| && body[j..j + 9] == RecBytes(r)
    ensures ReadRec(pre + body, |pre| + j) == Patch(r.x, r.y, Enc(r.tile))
  {
    SliceOfSecond(pre, body, j, 9);
    ReadRecOf(pre + body, |pre| + j, r);
  }

  lemma ReadRecAt(pre: seq<Byte>, rs: seq<Rec>, i: nat)
    requires i < |rs|
    ensures ReadRec(pre + RecsBytes(rs), |pre| + 9 * i) == Patch(rs[i].x, rs[i].y, Enc(rs[i].tile))
  {
    RecsBytesAt(rs, i);
    ReadRecIn(pre, RecsBytes(rs), 9 * i, rs[i]);
  }

  lemma {:induction false} ReadRecsOf(pre: seq<Byte>, rs: seq<Rec>, i: nat)
    requires i <= |rs|
    ensures (|rs| - i) * 9 == |pre + RecsBytes(rs)| - (|pre| + 9 * i)
    ensures ReadRecs(pre + RecsBytes(rs), |pre| + 9 * i) == Patches(rs)[i..]
    decreases |rs| - i
  {
    if i < |rs| {
      ReadRecAt(pre, rs, i);
      ReadRecsOf(pre, rs, i + 1);
      assert Patches(rs)[i..] == [Patches(rs)[i]] + Patches(rs)[i + 1..];
    }
  }

  lemma FiveFields(a: int, b: int, c: int, d: int, e: int)
    requires 0 <= a < 2 && 0 <= b < 2 && 0 <= c < 2 && 0 <= d < 2 && 0 <= e < 16
    ensures var v := a + 2 * b + 4 * c + 8 * d + 16 * e;
      0 <= v < 256 && v % 2 == a && v / 2 % 2 == b && v / 4 % 2 == c && v / 8 % 2 == d && v / 16 % 16 == e
  {
    var v := a + 2 * b + 4 * c + 8 * d + 16 * e;
    assert v / 2 == b + 2 * c + 4 * d + 8 * e;
    assert v / 4 == c + 2 * d + 4 * e;
    assert v / 8 == d + 2 * e;
    assert v / 16 == e;
  }

  lemma BitsRoundTrip(h: Header)
    requires h.Valid()
    ensures var b := Low(BitsByte(h));
      (b % 2 == 1) == h.isActive && (b / 2 % 2 == 1) == h.noPlayer && (b / 4 % 2 == 1) == h.ingameTime
      && (b / 8 % 2 == 1) == h.graphics && b / 16 % 16 == h.atlas
  {
    var a, b, c, d := Flag(h.isActive, 1), Flag(h.noPlayer, 1), Flag(h.ingameTime, 1), Flag(h.graphics, 1);
    var v := a + 2 * b + 4 * c + 8 * d + 16 * h.atlas;
    assert BitsByte(h) == v && 0 <= v < 256;
    assert Low(BitsByte(h)) == v;
    FiveFields(a, b, c, d, h.atlas);
  }

  lemma NickReads(nick: seq<Byte>, data: seq<Byte>, len: nat)
    requires forall i :: 0 <= i < |nick| ==> nick[i] != 0
    requires len == NickLen(nick) && 17 + len <= |data| && data[17..17 + len] == NickBytes(nick)
    ensures UntilNul(data, 17, 17 + len) == NickSent(nick)
  {
    var n := |NickSent(nick)|;
    var d := data[17..17 + len];
    assert n <= len && d[..n] == NickSent(nick);
    assert forall j :: 17 <= j < 17 + len ==> data[j] == d[j - 17];
    UntilNulReads(data, 17, 17 + len, n);
    assert data[17..17 + n] == d[..n];
  }

  lemma NickRoundTrip(h: Header, data: seq<Byte>)
    requires h.Valid() && HeaderBytes(h) <= data
    ensures data[16] == NickLen(h.nick)
    ensures UntilNul(data, 17, 17 + NickLen(h.nick) as int) == NickSent(h.nick)
  {
    var len: int := NickLen(h.nick);
    assert data[..17 + len] == HeaderBytes(h);
    assert data[16] == HeaderBytes(h)[16] == FixedBytes(h)[16];
    assert data[17..17 + len] == HeaderBytes(h)[17..] == NickBytes(h.nick);
    NickReads(h.nick, data, len);
  }

  lemma FixedAt(h: Header, data: seq<Byte>)
    requires FixedBytes(h) <= data
    ensures data[..4] == [110, Low(h.clientCount), Low(BitsByte(h)), if h.menu then 1 else 0]
    ensures data[4..8] == Le32(h.timeLeft) && data[8..10] == [Low(h.dims.w), Low(h.dims.h)]
    ensures data[10..12] == Le16(Clamp16(h.cam.x)) && data[12..14] == Le16(Clamp16(h.cam.y))
    ensures data[14..16] == Le16(Clamp16(h.cam.z)) && data[16] == NickLen(h.nick)
  {
    var f := FixedBytes(h);
    assert data[..17] == f;
    assert data[..4] == f[..4] && data[4..8] == f[4..8] && data[8..10] == f[8..10] && data[10..12] == f[10..12];
    assert data[12..14] == f[12..14] && data[14..16] == f[14..16] && data[16] == f[16];
  }

  lemma Int16At(data: seq<Byte>, k: nat, v: int)
    requires k + 2 <= |data| && data[k..k + 2] == Le16(Clamp16(v))
    ensures JsInt16(data[k], data[k + 1]) == Clamp16(v)
  {
    Le16RoundTrip(Clamp16(v));
    assert data[k] == data[k..k + 2][0] && data[k + 1] == data[k..k + 2][1];
  }

  lemma Int32At(data: seq<Byte>, k: nat, v: int)
    requires k + 4 <= |data| && data[k..k + 4] == Le32(v) && InInt32(v)
    ensures JsInt32(data[k], data[k + 1], data[k + 2], data[k + 3]) == v
  {
    Le32RoundTrip(v);
    var d := data[k..k + 4];
    assert data[k] == d[0] && data[k + 1] == d[1] && data[k + 2] == d[2] && data[k + 3] == d[3];
  }

  lemma FixedRoundTrip(h: Header, data: seq<Byte>)
    requires h.Valid() && FixedBytes(h) <= data && Readable(data)
    ensures ReadHead(data) == Update(h.clientCount % 128, h.isActive, h.noPlayer, h.ingameTime, h.graphics, h.atlas,
                                     h.menu, h.timeLeft, Dims(Low(h.dims.w), Low(h.dims.h)),
                                     Pos(Clamp16(h.cam.x), Clamp16(h.cam.y), Clamp16(h.cam.z)), [], None, [])
  {
    FixedAt(h, data);
    Int32At(data, 4, h.timeLeft);
    Int16At(data, 10, h.cam.x);
    Int16At(data, 12, h.cam.y);
    Int16At(data, 14, h.cam.z);
    BitsRoundTrip(h);
    CountRoundTrip(h.clientCount);
    assert data[1] == data[..4][1] && data[2] == data[..4][2] && data[3] == data[..4][3];
    assert data[8] == data[8..10][0] && data[9] == data[8..10][1];
  }

  lemma CountRoundTrip(n: nat)
    ensures Low(n) % 128 == n % 128
  {
    var q, a := n / 256, n % 256 / 128;
    var k := 2 * q + a;
    assert n == 128 * k + n % 256 % 128;
  }

  lemma EncodedIsReadable(h: Header, rs: seq<Rec>)
    requires h.Valid()
    ensures Readable(EncodeUpdate(h, rs))
    ensures FixedBytes(h) <= HeaderBytes(h) <= EncodeUpdate(h, rs)
    ensures ReadRecs(EncodeUpdate(h, rs), 17 + NickLen(h.nick) as int) == Patches(rs)
  {
    var data := EncodeUpdate(h, rs);
    assert data[..17] == FixedBytes(h);
    assert data[16] == FixedBytes(h)[16];
    ReadRecsOf(HeaderBytes(h), rs, 0);
    assert Patches(rs)[0..] == Patches(rs);
  }

  lemma DimsSurviveIff(d: Dims)
    requires d.Valid()
    ensures Dims(Low(d.w), Low(d.h)) == d <==> d.Sendable()
  {
  }

  lemma DecodedIs(h: Header, rs: seq<Rec>)
    requires h.Valid()
    ensures Readable(EncodeUpdate(h, rs))
    ensures DecodeUpdate(EncodeUpdate(h, rs)) == Expected(h, rs).(dims := Dims(Low(h.dims.w), Low(h.dims.h)))
  {
    var data := EncodeUpdate(h, rs);
    EncodedIsReadable(h, rs);
    FixedRoundTrip(h, data);
    NickRoundTrip(h, data);
    assert data[16] == NickLen(h.nick);
  }

  /** Every field comes back, whatever the name; the width and height exactly when they fit
      their bytes, and the records exactly when the sent name decodes or there are none. */
  lemma UpdateRoundTrip(h: Header, rs: seq<Rec>)
    requires h.Valid() && h.dims.Valid()
    ensures Readable(EncodeUpdate(h, rs))
    ensures DecodeUpdate(EncodeUpdate(h, rs)) == Expected(h, rs).(dims := Dims(Low(h.dims.w), Low(h.dims.h)))
    ensures DecodeUpdate(EncodeUpdate(h, rs)) == Expected(h, rs) <==> h.dims.Sendable()
    ensures DecodeUpdate(EncodeUpdate(h, rs)).patches == Patches(rs) <==> Decodes(h.nick) || rs == []
  {
    DecodedIs(h, rs);
    DimsSurviveIff(h.dims);
    assert Expected(h, rs).dims == h.dims;
    assert |Patches(rs)| == |rs|;
  }

  // ----- names -----

  /** A name a browser encoded decodes at the others exactly when it fits the length byte
      or the wrapped length falls between two characters. */
  lemma EncodedNickDecodesIff(text: seq<Name.Scalar>)
    ensures var nick := Name.Encode(text);
      Decodes(nick) <==> |nick| <= 254 || Name.Boundary(text, NickLen(nick))
  {
    var nick := Name.Encode(text);
    if |nick| <= 254 {
      Name.NameRoundTrip(text);
    } else {
      Name.PrefixDecodesIff(text, NickLen(nick));
    }
  }

  /** A short name without escapes decodes. */
  lemma PlainNickDecodes(nick: seq<Byte>)
    requires |nick| <= 254 && forall i :: 0 <= i < |nick| ==> nick[i] != Name.PERCENT
    ensures Decodes(nick)
  {
    Name.PlainDecodes(nick);
  }

  /** Fifty times e-acute: 300 bytes, of which 45 are sent. */
  const E_ACUTE: Name.Scalar := 0xE9

  function LongNick(): seq<Byte> { Name.Encode(Name.Repeated(E_ACUTE, 50)) }

  lemma NeverHalfway(c: Name.Scalar, n: nat)
    requires 0x80 <= c < 0x800
    ensures !Name.Boundary(Name.Repeated(c, n), 45)
  {
    if Name.Boundary(Name.Repeated(c, n), 45) { var j := Name.RepeatedBoundary(c, n, 45); }
  }

  lemma RepeatedNickFails(c: Name.Scalar, n: nat, nick: seq<Byte>)
    requires 0x80 <= c < 0x800 && n == 50 && nick == Name.Encode(Name.Repeated(c, n))
    ensures |nick| == 300 && !Decodes(nick)
  {
    Name.RepeatedLength(c, n);
    EncodedNickDecodesIff(Name.Repeated(c, n));
    NeverHalfway(c, n);
    assert NickLen(nick) == 45;
  }

  lemma LongNickFails()
    ensures |LongNick()| == 300 && !Decodes(LongNick())
  {
    RepeatedNickFails(E_ACUTE, 50, LongNick());
  }
}
