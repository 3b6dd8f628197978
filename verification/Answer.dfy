/** What an update tells the browser that asked, in terms of the state it leaves. */
module Answer {
  import Screen
  import opened Bytes
  import opened Wire
  import opened Model
  import Sync
  import Seat

  /** v cut to what sixteen signed bits hold. */
  predicate Cut16(v: int, r: int) {
    if v < -32768 then r == -32768 else if v > 32767 then r == 32767 else r == v
  }

  /** Every field a browser reads from the update h asked for: who holds the seat once the
      timer has been seen to, how many are connected, what is left of the turn, h's own view,
      the modes, and the name of whoever held the seat when it asked. */
  lemma AnswerTells(s: Server, w: World, h: Conn, e: Env)
    requires h in s.clients && w.dims.Valid()
    ensures Readable(TockPacket(s, w, h, e))
    ensures var u, s' := DecodeUpdate(TockPacket(s, w, h, e)), Tock(s, w, h, e);
      && (u.isActive <==> s'.active == Some(h)) && (u.noPlayer <==> s'.active.None?)
      && u.players == |s'.clients| % 128 && u.timeLeft == TimeLeft(s, e)
      && u.ingameTime == s.cfg.ingameTime && u.graphics == e.ui.graphics && u.atlas == e.ui.atlas % 16
      && u.menu == e.ui.menu && u.dims == Screen.Dims(w.dims.w % 256, w.dims.h % 256)
    ensures var u, c := DecodeUpdate(TockPacket(s, w, h, e)), s.clients[h];
      if c.hasOwnCam then Cut16(c.cam.x, u.cam.x) && Cut16(c.cam.y, u.cam.y) && Cut16(c.cam.z, u.cam.z)
      else Cut16(w.window.x, u.cam.x) && Cut16(w.window.y, u.cam.y) && Cut16(w.window.z, u.cam.z)
    ensures var u := DecodeUpdate(TockPacket(s, w, h, e));
      && (s.active.Some? && s.active.value in s.clients && |s.clients[s.active.value].nick| <= 254 ==>
           u.nick == s.clients[s.active.value].nick)
      && (s.active.None? && |s.nobody.nick| <= 254 ==> u.nick == s.nobody.nick)
  {
    var seat, hd := TockSeat(s, e), TockHeader(s, w, h, e);
    Sync.HeaderIsValid(s, w, h, e);
    UpdateRoundTrip(hd, Dirty(Lookup(seat, h), w.dims));
    Seat.TimeUpAfterIdle(s, e);
    SeatKeepsCamera(s, e, h);
    TockKeepsSeat(s, w, h, e);
  }

  lemma SeatKeepsCamera(s: Server, e: Env, h: Conn)
    requires h in s.clients
    ensures var seat := TockSeat(s, e);
      && h in seat.clients && seat.clients[h].hasOwnCam == s.clients[h].hasOwnCam
      && seat.clients[h].cam == s.clients[h].cam
  {
  }

  lemma TockKeepsSeat(s: Server, w: World, h: Conn, e: Env)
    ensures var seat, s' := TockSeat(s, e), Tock(s, w, h, e);
      s'.active == seat.active && |s'.clients| == |seat.clients|
  {
    var seat := TockSeat(s, e);
    var c := Lookup(seat, h);
    PutKeepsSize(seat, h, c.(mod := Screen.MarkSent(c.mod, w.dims.Total())));
  }

  lemma PutKeepsSize(s: Server, h: Conn, c: Client)
    ensures Put(s, h, c).active == s.active && |Put(s, h, c).clients| == |s.clients|
  {
    SameSize(Put(s, h, c).clients, s.clients);
  }

  lemma SameSize(a: map<Conn, Client>, b: map<Conn, Client>)
    requires a.Keys == b.Keys
    ensures |a| == |b|
  {
    assert |a| == |a.Keys| && |b| == |b.Keys|;
  }
}
