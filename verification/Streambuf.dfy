/** asio::basic_streambuf (server/asio/asio/basic_streambuf.hpp): one vector of bytes with
    moving get and put positions, against a bounded first-in first-out queue. */
module Streambuf {
  import opened Bytes

  const BUFFER_DELTA: nat := 128

  function Max(a: nat, b: nat): nat { if a > b then a else b }

  /** The largest advance pbump and gbump can make in one call: they take an int. */
  predicate FitsInt(n: nat) { n < 0x8000_0000 }

  /** Number of addresses; pointers and sizes are below it. */
  const ADDRESSES: nat := 0x1_0000_0000_0000_0000

  /** How far consume(n) moves the get position, with size unread bytes ending at address
      end: the sum gptr() + n is taken on addresses, and the count passes through an int. */
  function Gbump(size: nat, end: nat, n: nat): int
    requires size <= end
  {
    Wrap32(if (end - size + n) % ADDRESSES > end then size else n)
  }

  /** Whether consume(n) drops what it should. */
  predicate DropFits(size: nat, end: nat, n: nat) {
    size <= end < ADDRESSES && n < ADDRESSES
    && if end - size + n < ADDRESSES then FitsInt(Min(n, size)) else Wrap32(n) == size
  }

  lemma GbumpIff(size: nat, end: nat, n: nat)
    requires size <= end < ADDRESSES && n < ADDRESSES
    ensures Gbump(size, end, n) == Min(n, size) <==> DropFits(size, end, n)
  {
    Wrap32Id(size);
    Wrap32Id(n);
    if end - size + n >= ADDRESSES {
      assert (end - size + n) % ADDRESSES == end - size + n - ADDRESSES;
    }
  }

  /** The largest size asked to be dropped moves the get position back by one instead,
      wherever the buffer is. */
  lemma LargestDropMovesBack(size: nat, end: nat)
    requires size < end < ADDRESSES
    ensures Gbump(size, end, ADDRESSES - 1) == -1 && !DropFits(size, end, ADDRESSES - 1)
  {
    var n := ADDRESSES - 1;
    assert (end - size + n) % ADDRESSES == end - size - 1;
    GbumpIff(size, end, n);
  }

  /** memmove of the unread bytes to the front. */
  function ShiftDown(buf: seq<Byte>, g: nat, p: nat): seq<Byte>
    requires g <= p <= |buf|
  {
    buf[g..p] + buf[p - g..]
  }

  class BasicStreambuf {
    const maxSize: nat
    var buffer: array<Byte>
    // Positions as offsets into the buffer; eback() is always offset 0.
    var gptr: int
    var egptr: int
    var pptr: int
    var epptr: int

    ghost predicate Valid()
      reads this
    {
      && 0 <= gptr <= egptr <= pptr <= epptr <= maxSize
      && epptr <= buffer.Length && 1 <= buffer.Length
    }

    /** The input sequence: what data() exposes. */
    ghost function Contents(): (s: seq<Byte>)
      requires Valid()
      reads this, buffer
      ensures |s| <= maxSize
    {
      buffer[gptr..pptr]
    }

    constructor (maximumSize: nat)
      ensures Valid() && fresh(buffer) && maxSize == maximumSize && Contents() == []
    {
      var pend := Min(maximumSize, BUFFER_DELTA);
      maxSize := maximumSize;
      buffer := new Byte[Max(pend, 1)](_ => 0);
      gptr, egptr, pptr, epptr := 0, 0, 0, pend;
    }

    method Size() returns (n: nat)
      requires Valid()
      ensures n == |Contents()| <= maxSize
    {
      n := pptr - gptr;
    }

    method Data() returns (s: seq<Byte>)
      requires Valid()
      ensures s == Contents()
    {
      s := buffer[gptr..pptr];
    }

    /** Grows or compacts until n more bytes fit; false stands for length_error, which
        leaves the positions alone but may already have moved the bytes. */
    method Reserve(n: nat) returns (ok: bool)
      requires Valid()
      modifies this, buffer
      ensures Valid() && (buffer == old(buffer) || fresh(buffer))
      ensures ok <==> old(|Contents()|) + n <= maxSize
      ensures ok ==> Contents() == old(Contents()) && pptr + n <= epptr
      ensures !ok ==> unchanged(this) && buffer[..] == ShiftDown(old(buffer[..]), old(gptr), old(pptr))
    {
      var gnext, pnext, pend := gptr, pptr, epptr;
      if n <= pend - pnext {
        return true;
      }
      if gnext > 0 {
        pnext := pnext - gnext;
        MoveDown(gnext, pnext);
      }
      assert buffer[..] == ShiftDown(old(buffer[..]), old(gptr), old(pptr));
      assert buffer[..pnext] == old(Contents());
      if n > pend - pnext {
        if n <= maxSize && pnext <= maxSize - n {
          pend := pnext + n;
          var bigger := new Byte[Max(pend, 1)](i requires 0 <= i < Max(pend, 1) reads this, buffer =>
            if i < buffer.Length then buffer[i] else 0);
          buffer := bigger;
          assert buffer[..pnext] == old(Contents());
        } else {
          return false;
        }
      }
      gptr, egptr, pptr, epptr := 0, pnext, pnext, pend;
      ok := true;
    }

    /** memmove(&buffer[0], &buffer[0] + from, count), front to back. */
    method MoveDown(from: nat, count: nat)
      requires 0 < from && from + count <= buffer.Length
      modifies buffer
      ensures buffer[..count] == old(buffer[from..from + count])
      ensures buffer[count..] == old(buffer[count..])
    {
      for i := 0 to count
        invariant forall j :: 0 <= j < i ==> buffer[j] == old(buffer[from + j])
        invariant forall j :: i <= j < buffer.Length ==> buffer[j] == old(buffer[j])
      {
        buffer[i] := buffer[i + from];
      }
    }

    /** On success the output sequence has room for n bytes at pptr. */
    method Prepare(n: nat) returns (ok: bool)
      requires Valid()
      modifies this, buffer
      ensures Valid() && (buffer == old(buffer) || fresh(buffer))
      ensures ok <==> old(|Contents()|) + n <= maxSize
      ensures ok ==> Contents() == old(Contents()) && pptr + n <= epptr
      ensures !ok ==> unchanged(this) && buffer[..] == ShiftDown(old(buffer[..]), old(gptr), old(pptr))
    {
      ok := Reserve(n);
    }

    /** Appends exactly the first min(n, room) prepared bytes, if and only if that many
        fit the int handed to pbump. */
    method Commit(n: nat)
      requires Valid()
      modifies this
      ensures buffer == old(buffer) && gptr == old(gptr) && epptr == old(epptr)
      ensures var k := Min(n, old(epptr - pptr));
        FitsInt(k) <==> Valid() && Contents() == old(Contents()) + old(buffer[pptr..pptr + k])
    {
      var k := Min(n, epptr - pptr);
      pptr := pptr + Wrap32(k);
      egptr := pptr;
      Wrap32Id(k);
      assert FitsInt(k) ==> buffer[gptr..pptr] == old(buffer[gptr..pptr]) + old(buffer[pptr..pptr + k]);
      assert !FitsInt(k) ==> pptr - gptr != old(pptr - gptr) + k;
    }

    /** Drops exactly the first min(n, size) bytes, if and only if neither the sum of address
        and count nor the count as an int goes astray; end is the address of pptr(). */
    method Consume(n: nat, end: nat)
      requires Valid() && |Contents()| <= end < ADDRESSES && n < ADDRESSES
      modifies this
      ensures buffer == old(buffer) && pptr == old(pptr) && epptr == old(epptr)
      ensures gptr == old(gptr) + Gbump(old(|Contents()|), end, n)
      ensures DropFits(old(|Contents()|), end, n) <==>
        Valid() && Contents() == old(Contents())[Min(n, old(|Contents()|))..]
    {
      GbumpIff(|Contents()|, end, n);
      if egptr < pptr {
        egptr := pptr;
      }
      var k := n;
      if (end - (pptr - gptr) + n) % ADDRESSES > end {
        k := pptr - gptr;
      }
      gptr := gptr + Wrap32(k);
    }

    /** Makes appended bytes readable; None stands for eof. */
    method Underflow() returns (c: Option<Byte>)
      requires Valid()
      modifies this`egptr
      ensures Valid() && Contents() == old(Contents())
      ensures c == if old(Contents()) == [] then None else Some(old(Contents())[0])
      ensures c.Some? ==> gptr < egptr
    {
      if gptr < pptr {
        egptr := pptr;
        c := Some(buffer[gptr]);
      } else {
        c := None;
      }
    }

    /** Appends one byte unless it is eof; fails exactly when the queue is full, and then
        changes nothing. */
    method Overflow(c: Option<Byte>) returns (ok: bool)
      requires Valid()
      modifies this, buffer
      ensures Valid() && (buffer == old(buffer) || fresh(buffer))
      ensures !ok <==> c.Some? && old(|Contents()|) == maxSize
      ensures Contents() == old(Contents()) + if ok && c.Some? then [c.value] else []
    {
      if c.None? {
        return true;
      }
      ghost var before := Contents();
      if pptr == epptr {
        var bufferSize := pptr - gptr;
        if bufferSize < maxSize && maxSize - bufferSize < BUFFER_DELTA {
          ok := Reserve(maxSize - bufferSize);
        } else {
          ok := Reserve(BUFFER_DELTA);
        }
        if !ok {
          assert ShiftDown(old(buffer[..]), 0, old(pptr)) == old(buffer[..]);
          return;
        }
      }
      assert Contents() == before;
      PutByte(c.value);
      ok := true;
    }

    /** *pptr() = c; pbump(1) */
    method PutByte(c: Byte)
      requires Valid() && pptr < epptr
      modifies this`pptr, buffer
      ensures Valid() && Contents() == old(Contents()) + [c]
    {
      ghost var before := Contents();
      buffer[pptr] := c;
      pptr := pptr + 1;
      assert Contents() == before + [c];
    }

    /** prepare(room), fill part of it, commit that part: how read and read_until append. */
    method Append(bytes: seq<Byte>, room: nat) returns (ok: bool)
      requires Valid() && |bytes| <= room && (|Contents()| + room <= maxSize ==> FitsInt(|bytes|))
      modifies this, buffer
      ensures Valid() && (buffer == old(buffer) || fresh(buffer))
      ensures ok <==> old(|Contents()|) + room <= maxSize
      ensures ok ==> Contents() == old(Contents()) + bytes
    {
      ghost var before := Contents();
      ok := Prepare(room);
      if ok {
        Fill(bytes);
        assert Contents() == before;
        Commit(|bytes|);
      }
    }

    method Fill(bytes: seq<Byte>)
      requires Valid() && pptr + |bytes| <= epptr
      modifies buffer
      ensures buffer[pptr..pptr + |bytes|] == bytes
      ensures buffer[..pptr] == old(buffer[..pptr])
    {
      for i := 0 to |bytes|
        invariant buffer[pptr..pptr + i] == bytes[..i]
        invariant buffer[..pptr] == old(buffer[..pptr])
      {
        buffer[pptr + i] := bytes[i];
      }
    }
  }

  // ----- the queue it refines -----

  /** Room is what is prepared, bytes what is committed of it; end is where in memory the
      unread bytes end at that moment. */
  datatype Op = Append(bytes: seq<Byte>, room: nat) | Put(c: Byte) | Drop(n: nat, end: nat)

  /** A queue of at most maxSize bytes; None once what was asked for did not fit. */
  function Fifo(maxSize: nat, ops: seq<Op>): Option<seq<Byte>> {
    if ops == [] then Some([]) else
    var q := Fifo(maxSize, ops[..|ops| - 1]);
    if q.None? then None else FifoStep(maxSize, q.value, ops[|ops| - 1])
  }

  function FifoStep(maxSize: nat, q: seq<Byte>, op: Op): Option<seq<Byte>> {
    match op
    case Append(bytes, room) => if |q| + room <= maxSize then Some(q + bytes) else None
    case Put(c) => if |q| < maxSize then Some(q + [c]) else None
    case Drop(n, _) => Some(q[Min(n, |q|)..])
  }

  /** No more is committed than prepared, and every count that is actually added to or taken
      from the queue survives the int and the address it passes through. */
  predicate CountsFit(maxSize: nat, ops: seq<Op>) {
    ops == [] ||
    (var q := Fifo(maxSize, ops[..|ops| - 1]);
     CountsFit(maxSize, ops[..|ops| - 1])
     && match ops[|ops| - 1]
        case Append(bytes, room) =>
          |bytes| <= room && (q.Some? && |q.value| + room <= maxSize ==> FitsInt(|bytes|))
        case Put(_) => true
        case Drop(n, end) => q.Some? ==> DropFits(|q.value|, end, n))
  }

  lemma {:induction false} CountsFitPrefix(maxSize: nat, ops: seq<Op>, i: nat)
    requires i <= |ops| && CountsFit(maxSize, ops)
    ensures CountsFit(maxSize, ops[..i])
    decreases |ops|
  {
    if i == |ops| {
      assert ops[..i] == ops;
    } else {
      assert ops[..|ops| - 1][..i] == ops[..i];
      CountsFitPrefix(maxSize, ops[..|ops| - 1], i);
    }
  }

  /** With a maximum that fits an int, no commit past what was prepared, and drops that stay
      below the top of memory, there is nothing to check. */
  lemma {:induction false} SmallMaximumFits(maxSize: nat, ops: seq<Op>)
    requires FitsInt(maxSize)
    requires forall i :: 0 <= i < |ops| && ops[i].Append? ==> |ops[i].bytes| <= ops[i].room
    requires forall i :: 0 <= i < |ops| && ops[i].Drop? ==> maxSize <= ops[i].end && ops[i].end + ops[i].n < ADDRESSES
    ensures CountsFit(maxSize, ops) && (Fifo(maxSize, ops).Some? ==> |Fifo(maxSize, ops).value| <= maxSize)
  {
    if ops != [] { SmallMaximumFits(maxSize, ops[..|ops| - 1]); }
  }

  /** Any list of operations on a fresh buffer of any maximum size, up to the first that does
      not fit, is the same list on the queue. */
  method Replay(maxSize: nat, ops: seq<Op>) returns (r: Option<seq<Byte>>)
    requires CountsFit(maxSize, ops)
    ensures r == Fifo(maxSize, ops)
  {
    var b := new BasicStreambuf(maxSize);
    for i := 0 to |ops|
      invariant b.Valid() && fresh(b) && fresh(b.buffer) && b.maxSize == maxSize
      invariant Fifo(maxSize, ops[..i]) == Some(b.Contents())
    {
      assert ops[..i + 1][..i] == ops[..i];
      CountsFitPrefix(maxSize, ops, i + 1);
      var ok := true;
      match ops[i] {
        case Append(bytes, room) => ok := b.Append(bytes, room);
        case Put(c) => ok := b.Overflow(Some(c));
        case Drop(n, end) => b.Consume(n, end);
      }
      if !ok {
        FifoStuck(maxSize, ops, i + 1);
        return None;
      }
    }
    assert ops[..|ops|] == ops;
    var s := b.Data();
    r := Some(s);
  }

  lemma {:induction false} FifoStuck(maxSize: nat, ops: seq<Op>, i: nat)
    requires i <= |ops| && Fifo(maxSize, ops[..i]).None?
    ensures Fifo(maxSize, ops).None?
    decreases |ops|
  {
    if i == |ops| {
      assert ops[..i] == ops;
    } else {
      assert ops[..|ops| - 1][..i] == ops[..i];
      FifoStuck(maxSize, ops[..|ops| - 1], i);
    }
  }

  /** A prepare that throws keeps the unread bytes, whatever they are, exactly when nothing
      had been consumed or at least half of the filled part had. */
  lemma ThrowKeepsIff(g: nat, p: nat)
    requires g <= p
    ensures (forall buf: seq<Byte> :: |buf| == p ==> ShiftDown(buf, g, p)[g..p] == buf[g..p]) <==> g == 0 || p <= 2 * g
  {
    if g == 0 || p <= 2 * g {
      forall buf: seq<Byte> | |buf| == p ensures ShiftDown(buf, g, p)[g..p] == buf[g..p] {
      }
    } else {
      var buf: seq<Byte> := seq(p, i => if i == 2 * g then 1 else 0);
      assert ShiftDown(buf, g, p)[g..p][0] == buf[2 * g] == 1;
      assert buf[g..p][0] == 0;
    }
  }
}
