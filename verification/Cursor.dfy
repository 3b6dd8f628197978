/** The cursor packet (opcode 112): tock's second packet and the browser's reading of it. */
module Cursor {
  import Screen
  import opened Bytes
  import opened Wire
  import opened Model

  const CBUF: nat := 4096

  /** One cursor as the server writes it. */
  datatype Entry = Entry(nick: Nick, x: Byte, y: Byte, color: Byte)

  /** One cursor as the browser draws it. */
  datatype Shown = Shown(nick: seq<Byte>, x: int, y: int, color: int)

  // ----- which cursors a client sees -----

  /** A client's cursor in world tiles: the driver's from gps->mouse, others' as last sent. */
  function WorldCursor(s: Server, w: World, k: Conn): Option<(int, int)>
    requires k in s.clients
  {
    if s.active == Some(k) then
      (if w.mouseX >= 0 then Some((w.window.x + w.mouseX, w.window.y + w.mouseY)) else None)
    else if s.clients[k].cursorActive then Some((s.clients[k].cursorX, s.clients[k].cursorY))
    else None
  }

  /** Where, if anywhere, h sees a world position. */
  function InView(w: World, c: Client, p: (int, int)): Option<(int, int)> {
    var q := (p.0 - Base(c, w).x, p.1 - Base(c, w).y);
    if w.dims.Has(q.0, q.1) then Some(q) else None
  }

  function Sees(s: Server, w: World, h: Conn, k: Conn): Option<(int, int)>
    requires k in s.clients
  {
    if k == h || WorldCursor(s, w, k).None? then None else InView(w, Lookup(s, h), WorldCursor(s, w, k).value)
  }

  function EntrySize(e: Entry): nat { NickLen(e.nick) as int + 4 }

  function EntryBytes(e: Entry): (b: seq<Byte>)
    ensures |b| == EntrySize(e)
  {
    [NickLen(e.nick)] + NickBytes(e.nick) + [e.x, e.y, e.color]
  }

  function Extend(es: seq<Entry>, e: Option<Entry>): seq<Entry> {
    if e.Some? then es + [e.value] else es
  }

  /** The entry for one client of the map, if h sees its cursor. */
  function Candidate(s: Server, w: World, h: Conn, k: Conn, color: Byte): Option<Entry>
    requires k in s.clients && w.dims.Fits()
  {
    var seen := Sees(s, w, h, k);
    if seen.None? then None else Some(Entry(s.clients[k].nick, seen.value.0, seen.value.1, color))
  }

  /** Every cursor h could be told about, coloured by position in the client map. */
  function Visible(s: Server, w: World, h: Conn, order: seq<Conn>): seq<Entry>
    requires forall k :: k in order ==> k in s.clients
    requires w.dims.Fits()
  {
    if order == [] then [] else
    var n := |order| - 1;
    Extend(Visible(s, w, h, order[..n]), Candidate(s, w, h, order[n], Low(n)))
  }

  function EntriesBytes(es: seq<Entry>): seq<Byte> {
    if es == [] then [] else EntriesBytes(es[..|es| - 1]) + EntryBytes(es[|es| - 1])
  }

  /** The longest prefix that fits the buffer, stopping at the first entry that does not. */
  function Fitting(es: seq<Entry>): seq<Entry> {
    if es == [] then [] else
    var pre := Fitting(es[..|es| - 1]);
    if |pre| == |es| - 1 && 2 + |EntriesBytes(pre)| + EntrySize(es[|es| - 1]) <= CBUF then es else pre
  }

  function CursorPacket(es: seq<Entry>): seq<Byte> {
    [112, Low(|Fitting(es)|)] + EntriesBytes(Fitting(es))
  }

  lemma {:induction false} FittingFits(es: seq<Entry>)
    ensures Fitting(es) <= es && 2 + |EntriesBytes(Fitting(es))| <= CBUF
  {
    if es != [] {
      var pre := es[..|es| - 1];
      FittingFits(pre);
      if |Fitting(pre)| == |pre| {
        assert Fitting(pre) == pre;
      }
    }
  }

  lemma {:induction false} PrefixBytes(es: seq<Entry>, n: nat)
    requires n <= |es|
    ensures |EntriesBytes(es[..n])| <= |EntriesBytes(es)|
    decreases |es|
  {
    if n == |es| {
      assert es[..n] == es;
    } else {
      assert es[..|es| - 1][..n] == es[..n];
      PrefixBytes(es[..|es| - 1], n);
    }
  }

  /** Nothing is left out exactly when everything fits the buffer. */
  lemma {:induction false} AllFitIff(es: seq<Entry>)
    ensures Fitting(es) == es <==> 2 + |EntriesBytes(es)| <= CBUF
  {
    FittingFits(es);
    if es != [] {
      var pre := es[..|es| - 1];
      AllFitIff(pre);
      PrefixBytes(es, |es| - 1);
      FittingFits(pre);
    }
  }

  // ----- the loop over the client map -----

  lemma FitStep(es: seq<Entry>, e: Entry)
    requires Fitting(es) == es
    ensures Fitting(es + [e]) == if 2 + |EntriesBytes(es)| + EntrySize(e) <= CBUF then es + [e] else es
    ensures EntriesBytes(es + [e]) == EntriesBytes(es) + EntryBytes(e)
  {
    assert (es + [e])[..|es|] == es;
  }

  lemma VisibleStep(s: Server, w: World, h: Conn, order: seq<Conn>, i: nat)
    requires w.dims.Fits() && (forall k :: k in order ==> k in s.clients) && i < |order|
    ensures Visible(s, w, h, order[..i + 1])
         == Extend(Visible(s, w, h, order[..i]), Candidate(s, w, h, order[i], Low(i)))
  {
    assert order[..i + 1][..i] == order[..i];
  }

  /** A byte counter follows the true count. */
  lemma LowStep(c: int, i: nat)
    requires c == Low(i)
    ensures Low(c + 1) == Low(i + 1)
  {
  }

  /** What the cursor buffer holds so far, behind the two bytes filled in last. */
  ghost predicate Written(buf: array<Byte>, cb: int, count: int, out: seq<Entry>)
    reads buf
  {
    && 2 <= cb <= buf.Length && buf[2..cb] == EntriesBytes(out) && count == Low(|out|)
    && Fitting(out) == out
  }

  /** Writes one entry at cb, after the caller checked that it fits. */
  method PutEntry(cbuf: array<Byte>, cb: nat, e: Entry) returns (cb': nat)
    requires 2 <= cb && cb + EntrySize(e) <= cbuf.Length
    modifies cbuf
    ensures cb' == cb + EntrySize(e)
    ensures cbuf[2..cb'] == old(cbuf[2..cb]) + EntryBytes(e)
  {
    CopyOut(cbuf, cb, EntryBytes(e));
    cb' := cb + EntrySize(e);
    assert cbuf[..cb] == old(cbuf[..cb]);
    assert cbuf[2..cb] == cbuf[..cb][2..] == old(cbuf[2..cb]);
  }

  /** The end of the loop body: skip a client out of view, stop if full, else write. */
  method AddCursor(cbuf: array<Byte>, cb: nat, count: int, e: Option<Entry>, ghost out: seq<Entry>)
    returns (cb': nat, count': int, full: bool, ghost out': seq<Entry>)
    requires cbuf.Length == CBUF && Written(cbuf, cb, count, out)
    modifies cbuf
    ensures Written(cbuf, cb', count', out')
    ensures out' == Fitting(Extend(out, e)) && (full <==> out' != Extend(out, e))
  {
    cb', count', full, out' := cb, count, false, out;
    if e.Some? {
      FitStep(out, e.value);
      if cb + EntrySize(e.value) > CBUF {
        full := true;
      } else {
        cb' := PutEntry(cbuf, cb, e.value);
        LowStep(count, |out|);
        count' := Low(count + 1);
        out' := out + [e.value];
      }
    }
  }

  lemma StuckStep(es: seq<Entry>, e: Option<Entry>)
    requires Fitting(es) != es
    ensures Fitting(Extend(es, e)) == Fitting(es) != Extend(es, e)
  {
    FittingFits(es);
    if e.Some? {
      assert (es + [e.value])[..|es|] == es;
      assert |Fitting(es)| < |es|;
    }
  }

  /** Once an entry did not fit, later clients change nothing. */
  lemma {:induction false} StuckFitting(s: Server, w: World, h: Conn, order: seq<Conn>, i: nat)
    requires w.dims.Fits() && (forall k :: k in order ==> k in s.clients) && i <= |order|
    requires i < |order| ==> Fitting(Visible(s, w, h, order[..i])) != Visible(s, w, h, order[..i])
    ensures Fitting(Visible(s, w, h, order)) == Fitting(Visible(s, w, h, order[..i]))
    ensures i < |order| ==> Fitting(Visible(s, w, h, order)) != Visible(s, w, h, order)
    decreases |order|
  {
    if i == |order| {
      assert order[..i] == order;
    } else {
      var n := |order| - 1;
      assert order[..n][..i] == order[..i];
      StuckFitting(s, w, h, order[..n], i);
      if i == n {
        assert order[..n][..i] == order[..n];
      }
      var pre, c := Visible(s, w, h, order[..n]), Candidate(s, w, h, order[n], Low(n));
      assert Visible(s, w, h, order) == Extend(pre, c);
      StuckStep(pre, c);
    }
  }

  // ----- the browser -----

  /** onMessage, cursor branch: the name is read up to a NUL or its length less one. */
  function ReadEntries(data: seq<Byte>, offset: nat, count: nat): Option<seq<Shown>>
    decreases count
  {
    if count == 0 then Some([])
    else if offset >= |data| then None
    else
      var len: int := data[offset];
      if offset + len + 4 > |data| then None else
      var nick := UntilNul(data, offset + 1, offset + 1 + if len > 0 then len - 1 else 0);
      var at := offset + 1 + len;
      Join([Shown(nick, data[at], data[at + 1], data[at + 2])], ReadEntries(data, at + 3, count - 1))
  }

  function Join(a: seq<Shown>, b: Option<seq<Shown>>): Option<seq<Shown>> {
    if b.None? then None else Some(a + b.value)
  }

  lemma JoinLaws(a: seq<Shown>, x: Shown, b: Option<seq<Shown>>)
    ensures Join([], b) == b && Join(a, Join([x], b)) == Join(a + [x], b) && Join(a, Some([])) == Some(a)
  {
    if b.Some? {
      assert [] + b.value == b.value && a + ([x] + b.value) == (a + [x]) + b.value;
    }
    assert a + [] == a;
  }

  function ReadCursors(data: seq<Byte>): Option<seq<Shown>> {
    if |data| < 2 || data[0] != 112 then None else ReadEntries(data, 2, data[1])
  }

  /** The same reading as the loop in the source. */
  method OnCursorMessage(data: seq<Byte>) returns (r: Option<seq<Shown>>)
    ensures r == ReadCursors(data)
  {
    if |data| < 2 || data[0] != 112 {
      return None;
    }
    var shown: seq<Shown> := [];
    var offset := 2;
    var count: int := data[1];
    var ci := 0;
    assert ReadCursors(data) == Join(shown, ReadEntries(data, 2, count)) by {
      JoinLaws([], Shown([], 0, 0, 0), ReadEntries(data, 2, count));
    }
    while ci < count
      invariant 0 <= ci <= count && 2 <= offset
      invariant ReadCursors(data) == Join(shown, ReadEntries(data, offset, count - ci))
    {
      if offset >= |data| {
        return None;
      }
      var len: int := data[offset];
      if offset + len + 4 > |data| {
        return None;
      }
      var nick := UntilNul(data, offset + 1, offset + 1 + if len > 0 then len - 1 else 0);
      var at := offset + 1 + len;
      JoinLaws(shown, Shown(nick, data[at], data[at + 1], data[at + 2]), ReadEntries(data, at + 3, count - ci - 1));
      shown := shown + [Shown(nick, data[at], data[at + 1], data[at + 2])];
      offset := at + 3;
      ci := ci + 1;
    }
    JoinLaws(shown, Shown([], 0, 0, 0), None);
    r := Some(shown);
  }

  /** What is drawn for an entry: the whole name up to 254 bytes, otherwise one byte less
      than the wrapped length. */
  function NickShown(nick: Nick): seq<Byte> {
    if |nick| <= 254 then nick else nick[..if NickLen(nick) > 0 then NickLen(nick) as int - 1 else 0]
  }

  function ShownOf(es: seq<Entry>): seq<Shown> {
    seq(|es|, i requires 0 <= i < |es| => Shown(NickShown(es[i].nick), es[i].x, es[i].y, es[i].color))
  }

  lemma SliceOfSlice(s: seq<Byte>, at: nat, n: nat, a: nat, b: nat)
    requires at + n <= |s| && a <= b <= n
    ensures s[at..at + n][a..b] == s[at + a..at + b]
  {
    var d := s[at..at + n];
    assert forall i :: 0 <= i < b - a ==> d[a..b][i] == d[a + i] && d[a + i] == s[at + a + i];
  }

  lemma SliceMiddle(a: seq<Byte>, b: seq<Byte>, c: seq<Byte>)
    ensures (a + (b + c))[|a|..|a| + |b|] == b
  {
  }

  lemma ConcatAssoc(a: seq<Byte>, b: seq<Byte>, c: seq<Byte>)
    ensures (a + b) + c == a + (b + c)
  {
  }

  lemma {:induction false} EntriesFront(es: seq<Entry>)
    requires es != []
    ensures EntriesBytes(es) == EntryBytes(es[0]) + EntriesBytes(es[1..])
  {
    var n := |es| - 1;
    if n == 0 {
      assert es[..0] == [] && es[1..] == [];
    } else {
      var mid := es[1..n];
      EntriesFront(es[..n]);
      assert es[..n][1..] == mid && es[1..][..n - 1] == mid && es[1..][n - 1] == es[n];
      assert EntriesBytes(es[1..]) == EntriesBytes(mid) + EntryBytes(es[n]);
      ConcatAssoc(EntryBytes(es[0]), EntriesBytes(mid), EntryBytes(es[n]));
    }
  }

  lemma EntryFields(e: Entry, data: seq<Byte>, offset: nat, len: nat)
    requires len == NickLen(e.nick) && offset + len + 4 <= |data|
    requires data[offset..offset + EntrySize(e)] == EntryBytes(e)
    ensures data[offset] == len && data[offset + 1 + len] == e.x && data[offset + 2 + len] == e.y
    ensures data[offset + 3 + len] == e.color
    ensures data[offset + 1..offset + 1 + len] == NickBytes(e.nick)
  {
    var d := data[offset..offset + EntrySize(e)];
    assert d[0] == data[offset] && d[1 + len] == data[offset + 1 + len];
    assert d[2 + len] == data[offset + 2 + len] && d[3 + len] == data[offset + 3 + len];
    ConcatAssoc([NickLen(e.nick)], NickBytes(e.nick), [e.x, e.y, e.color]);
    SliceMiddle([NickLen(e.nick)], NickBytes(e.nick), [e.x, e.y, e.color]);
    SliceOfSlice(data, offset, EntrySize(e), 1, 1 + len);
  }

  lemma NickShownLength(nick: Nick, len: nat)
    requires len == NickLen(nick)
    ensures |NickShown(nick)| == (if len > 0 then len - 1 else 0) <= |nick|
    ensures NickShown(nick) == nick[..|NickShown(nick)|] && |NickShown(nick)| <= len
    ensures NickBytes(nick)[..|NickShown(nick)|] == NickShown(nick)
  {
  }

  lemma EntryNick(nick: Nick, data: seq<Byte>, at: nat, len: nat)
    requires len == NickLen(nick) && at + len <= |data| && data[at..at + len] == NickBytes(nick)
    ensures UntilNul(data, at, at + if len > 0 then len - 1 else 0) == NickShown(nick)
  {
    var n := |NickShown(nick)|;
    NickShownLength(nick, len);
    SliceOfSlice(data, at, len, 0, n);
    assert data[at..at + n] == NickShown(nick) == nick[..n];
    assert forall j :: at <= j < at + n ==> data[j] == data[at..at + n][j - at];
    UntilNulReads(data, at, at + n, n);
  }

  function ShownEntry(e: Entry): Shown { Shown(NickShown(e.nick), e.x, e.y, e.color) }

  lemma ReadOne(data: seq<Byte>, offset: nat, n: nat, e: Entry)
    requires n > 0 && offset + EntrySize(e) <= |data| && data[offset..offset + EntrySize(e)] == EntryBytes(e)
    ensures ReadEntries(data, offset, n) == Join([ShownEntry(e)], ReadEntries(data, offset + EntrySize(e), n - 1))
  {
    EntryFields(e, data, offset, NickLen(e.nick));
    EntryNick(e.nick, data, offset + 1, NickLen(e.nick));
  }

  lemma ShownFront(es: seq<Entry>, n: nat)
    requires 0 < n <= |es|
    ensures ShownOf(es[..n]) == [ShownEntry(es[0])] + ShownOf(es[1..][..n - 1])
  {
  }

  lemma ReadFront(pre: seq<Byte>, e: Entry, tail: seq<Byte>, n: nat, data: seq<Byte>, at: nat, rest: seq<Shown>)
    requires n > 0 && data == pre + (EntryBytes(e) + tail) && at == |pre| + EntrySize(e)
    requires ReadEntries(data, at, n - 1) == Some(rest)
    ensures ReadEntries(data, |pre|, n) == Some([ShownEntry(e)] + rest)
  {
    SliceMiddle(pre, EntryBytes(e), tail);
    ReadOne(data, |pre|, n, e);
  }

  lemma {:induction false} ReadEntriesOf(pre: seq<Byte>, es: seq<Entry>, n: nat)
    requires n <= |es|
    ensures ReadEntries(pre + EntriesBytes(es), |pre|, n) == Some(ShownOf(es[..n]))
    decreases n
  {
    if n == 0 {
      assert ShownOf(es[..0]) == [];
    } else {
      var e, tail := es[0], EntriesBytes(es[1..]);
      EntriesFront(es);
      ConcatAssoc(pre, EntryBytes(e), tail);
      ReadEntriesOf(pre + EntryBytes(e), es[1..], n - 1);
      ReadFront(pre, e, tail, n, pre + EntriesBytes(es), |pre + EntryBytes(e)|, ShownOf(es[1..][..n - 1]));
      ShownFront(es, n);
    }
  }

  lemma ReadPacket(out: seq<Entry>)
    ensures var n: int := Low(|out|);
      n <= |out| && ReadCursors([112, Low(|out|)] + EntriesBytes(out)) == Some(ShownOf(out[..n]))
  {
    ReadEntriesOf([112, Low(|out|)], out, Low(|out|));
  }

  lemma ShownPrefixIff(out: seq<Entry>, n: nat)
    requires n <= |out|
    ensures ShownOf(out[..n]) == ShownOf(out) <==> n == |out|
  {
    assert |ShownOf(out[..n])| == n && |ShownOf(out)| == |out|;
    if n == |out| { assert out[..n] == out; }
  }

  lemma CountFitsIff(n: nat)
    ensures Low(n) as int == n <==> n <= 255
  {
  }

  /** The browser draws exactly the written cursors if and only if the count did not wrap. */
  lemma CursorRoundTrip(es: seq<Entry>)
    ensures |CursorPacket(es)| <= CBUF
    ensures ReadCursors(CursorPacket(es)) == Some(ShownOf(Fitting(es))) <==> |Fitting(es)| <= 255
  {
    FittingFits(es);
    ReadPacket(Fitting(es));
    ShownPrefixIff(Fitting(es), Low(|Fitting(es)|));
    CountFitsIff(|Fitting(es)|);
  }

  // ----- which cursors are drawn -----

  /** The name of a cursor as the browser gets it: whole up to 254 bytes, else cut to one byte
      less than the length byte, if that. */
  function NameSent(nick: seq<Byte>): seq<Byte> {
    var len := (|nick| + 1) % 256;
    if |nick| <= 254 then nick else nick[..if len > 0 then len - 1 else 0]
  }

  /** One client of the map is drawn for h: in view at that place, under its own name, in the
      colour of its rank. */
  predicate DrawnFor(s: Server, w: World, h: Conn, order: seq<Conn>, i: int, sh: Shown)
    requires forall k :: k in order ==> k in s.clients
  {
    && 0 <= i < |order| && order[i] != h
    && Sees(s, w, h, order[i]) == Some((sh.x, sh.y))
    && sh.nick == NameSent(s.clients[order[i]].nick) && sh.color == i % 256
  }

  lemma CandidateShown(s: Server, w: World, h: Conn, order: seq<Conn>, i: nat, sh: Shown)
    requires w.dims.Fits() && (forall k :: k in order ==> k in s.clients) && i < |order|
    ensures var c := Candidate(s, w, h, order[i], Low(i));
      DrawnFor(s, w, h, order, i, sh) <==> c.Some? && sh == ShownEntry(c.value)
  {
  }

  lemma ShownSnoc(es: seq<Entry>, e: Option<Entry>)
    ensures ShownOf(Extend(es, e)) == ShownOf(es) + if e.Some? then [ShownEntry(e.value)] else []
  {
  }

  /** The visible cursors are those of the clients in view, and of nobody else. */
  lemma {:induction false} VisibleIff(s: Server, w: World, h: Conn, order: seq<Conn>, sh: Shown)
    requires w.dims.Fits() && forall k :: k in order ==> k in s.clients
    ensures sh in ShownOf(Visible(s, w, h, order)) <==> exists i :: DrawnFor(s, w, h, order, i, sh)
    decreases |order|
  {
    if order != [] {
      var n := |order| - 1;
      VisibleIff(s, w, h, order[..n], sh);
      CandidateShown(s, w, h, order, n, sh);
      ShownSnoc(Visible(s, w, h, order[..n]), Candidate(s, w, h, order[n], Low(n)));
      forall i | 0 <= i < n ensures DrawnFor(s, w, h, order[..n], i, sh) <==> DrawnFor(s, w, h, order, i, sh) {
        assert order[..n][i] == order[i];
      }
      if i :| DrawnFor(s, w, h, order, i, sh) {
        assert i == n || DrawnFor(s, w, h, order[..n], i, sh);
      }
      if i :| DrawnFor(s, w, h, order[..n], i, sh) {
        assert DrawnFor(s, w, h, order, i, sh);
      }
    }
  }

  /** Every visible cursor fits the packet and its count byte. */
  predicate Roomy(s: Server, w: World, h: Conn, order: seq<Conn>) {
    && w.dims.Fits() && (forall k :: k in order ==> k in s.clients)
    && |Visible(s, w, h, order)| <= 255 && 2 + |EntriesBytes(Visible(s, w, h, order))| <= CBUF
  }

  /** What the browser of h reads from its cursor packet. */
  function DrawnCursors(s: Server, w: World, h: Conn, order: seq<Conn>): Option<seq<Shown>>
    requires w.dims.Fits() && forall k :: k in order ==> k in s.clients
  {
    ReadCursors(CursorPacket(Visible(s, w, h, order)))
  }

  /** End to end: when all visible cursors fit the packet and its count byte, the browser of h
      draws exactly the cursors of the other clients that are in its view, each where it is
      seen, under that client's name and in the colour of its rank in the map. */
  lemma CursorsDrawnIff(s: Server, w: World, h: Conn, order: seq<Conn>, sh: Shown)
    requires Roomy(s, w, h, order)
    ensures DrawnCursors(s, w, h, order).Some?
    ensures sh in DrawnCursors(s, w, h, order).value <==> exists i :: DrawnFor(s, w, h, order, i, sh)
  {
    var es := Visible(s, w, h, order);
    AllFitIff(es);
    CursorRoundTrip(es);
    VisibleIff(s, w, h, order, sh);
  }

  // ----- what a cursor means -----

  /** A spectator's cursor message shows up at another client at sender tile + sender camera
      - receiver camera, if and only if that is in the receiver's view. */
  lemma SpectatorCursor(s: Server, w: World, h: Conn, k: Conn, tx: Byte, ty: Byte, e: Env)
    requires h in s.clients && k in s.clients && h != k && s.active != Some(k)
    ensures var s' := OnMessage(s, w, k, MCursor(tx, ty), e);
      var x, y := tx + Base(s.clients[k], w).x - Base(s.clients[h], w).x,
                  ty + Base(s.clients[k], w).y - Base(s.clients[h], w).y;
      && k in s'.clients
      && Sees(s', w, h, k) == if w.dims.Has(x, y) then Some((x, y)) else None
  {
  }

  /** The driver's cursor is the game's mouse in the viewport, seen from h's camera. */
  lemma DriverCursor(s: Server, w: World, h: Conn, k: Conn)
    requires h in s.clients && k in s.clients && h != k && s.active == Some(k)
    ensures var c := s.clients[h];
      var x := w.window.x + w.mouseX - (if c.hasOwnCam then c.cam.x else w.window.x);
      var y := w.window.y + w.mouseY - (if c.hasOwnCam then c.cam.y else w.window.y);
      Sees(s, w, h, k)
      == if w.mouseX >= 0 && 0 <= x < w.dims.w && 0 <= y < w.dims.h then Some((x, y)) else None
  {
  }

  /** A spectator's pointer message ends as a cursor on another client's screen: at the
      translated tile if that is in view, under the spectator's name. */
  lemma PointerIsDrawn(s: Server, w: World, h: Conn, k: Conn, tx: Byte, ty: Byte, e: Env, order: seq<Conn>, i: nat)
    requires h in s.clients && k in s.clients && h != k && s.active != Some(k) && i < |order| && order[i] == k
    requires Roomy(OnMessage(s, w, k, MCursor(tx, ty), e), w, h, order)
    ensures var s' := OnMessage(s, w, k, MCursor(tx, ty), e);
      var x, y := tx + Base(s.clients[k], w).x - Base(s.clients[h], w).x,
                  ty + Base(s.clients[k], w).y - Base(s.clients[h], w).y;
      && DrawnCursors(s', w, h, order).Some?
      && (w.dims.Has(x, y) ==>
           Shown(NameSent(s.clients[k].nick), x, y, i % 256) in DrawnCursors(s', w, h, order).value)
  {
    SpectatorCursor(s, w, h, k, tx, ty, e);
    var s' := OnMessage(s, w, k, MCursor(tx, ty), e);
    var x, y := tx + Base(s.clients[k], w).x - Base(s.clients[h], w).x,
                ty + Base(s.clients[k], w).y - Base(s.clients[h], w).y;
    var sh := Shown(NameSent(s.clients[k].nick), x, y, i % 256);
    if w.dims.Has(x, y) {
      assert DrawnFor(s', w, h, order, i, sh);
    }
    CursorsDrawnIff(s', w, h, order, sh);
  }

  /** Nobody is shown their own cursor, and the holder's stored one is never used. */
  lemma OwnCursorHidden(s: Server, w: World, h: Conn, order: seq<Conn>, i: nat)
    requires w.dims.Fits() && (forall k :: k in order ==> k in s.clients) && i < |order| && order[i] == h
    ensures Visible(s, w, h, order[..i + 1]) == Visible(s, w, h, order[..i])
  {
    assert order[..i + 1][..i] == order[..i];
  }

  /** The driver's cursor as the extra render pass stamps it into a spectator's view. */
  function Stamped(tile: (int, int), w: World, c: Client): Option<(int, int)> {
    if tile.0 < 0 then None
    else
      var q := (w.window.x + tile.0 - c.cam.x, w.window.y + tile.1 - c.cam.y);
      if w.dims.Has(q.0, q.1) then Some(q) else None
  }

  /** The same place seen by the game's own mouse: what tock reports of the driver. */
  predicate MouseInView(m: (int, int), fed: Pos, cam: Pos, d: Screen.Dims) {
    m.0 >= 0 && d.Has(fed.x + m.0 - cam.x, fed.y + m.1 - cam.y)
  }

  /** After a tick, the cursor a spectator with its own camera is told about is where the
      render pass stamped it, if and only if some move or press has placed the virtual
      pointer by then or the game's own mouse is off or out of that spectator's view. */
  lemma DriverCursorAgrees(s: Server, w: World, f: Frames, h: Conn, k: Conn)
    requires h in s.clients && k in s.clients && h != k && s.active == Some(k) && s.clients[h].hasOwnCam
    ensures var s', w' := Tick(s, w, f), TickWorld(s, w, f);
      && h in s'.clients && k in s'.clients
      && (Sees(s', w', h, k) == Stamped((s'.tileX, s'.tileY), w', s'.clients[h]) <==>
          FlushMice(s.mice, s.tileX, s.tileY).0 >= 0
          || !MouseInView(StampedMouse(s, w), f.fed, s.clients[h].cam, w.dims))
  {
  }
}
