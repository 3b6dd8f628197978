/** Which players' names keep every update readable, over whole runs. */
module Names {
  import Screen
  import Wire
  import Name
  import opened Bytes
  import opened Model
  import Sync

  /** Any name a browser encodes in at most 254 bytes decodes at the others. */
  lemma ShortNameDecodes(text: seq<Name.Scalar>)
    requires |Name.Encode(text)| <= 254
    ensures Wire.Decodes(Name.Encode(text))
  {
    Wire.EncodedNickDecodesIff(text);
  }

  /** So does the name that stands for nobody. */
  lemma NobodyDecodes()
    ensures Wire.Decodes(NOBODY)
  {
    Wire.PlainNickDecodes(NOBODY);
  }

  ghost predicate AllDecode(s: Server) {
    Wire.Decodes(s.nobody.nick) && forall h :: h in s.clients ==> Wire.Decodes(s.clients[h].nick)
  }

  /** Everyone connected afterwards was so before, under the same name. */
  ghost predicate SameNames(s: Server, s': Server) {
    s'.nobody.nick == s.nobody.nick
    && forall h :: h in s'.clients ==> h in s.clients && s'.clients[h].nick == s.clients[h].nick
  }

  lemma PutNames(s: Server, h: Conn, c: Client)
    requires c.nick == Lookup(s, h).nick
    ensures SameNames(s, Put(s, h, c))
  {
  }

  lemma SetActiveNames(s: Server, o: Option<Conn>, e: Env)
    ensures SameNames(s, SetActive(s, o, e))
  {
    var s1 := HideCursor(HideCursor(s, s.active).(active := o), o);
    assert SameNames(s, s1);
    if o.Some? {
      PutNames(s1, o.value, Lookup(s1, o.value).(atime := e.round, mod := Screen.AllDirty()));
    }
  }

  lemma MessageNames(s: Server, w: World, h: Conn, m: Msg, e: Env)
    ensures SameNames(s, OnMessage(s, w, h, m, e))
  {
    match m
    case MTurn => SetActiveNames(s, None, e); SetActiveNames(s, Some(h), e);
    case MTock =>
      SetActiveNames(IdleTimer(s, e), None, e);
      var s1 := TockSeat(s, e);
      PutNames(s1, h, Lookup(s1, h).(mod := Screen.MarkSent(Lookup(s1, h).mod, w.dims.Total())));
    case _ =>
  }

  lemma TickNames(s: Server, w: World, f: Frames)
    ensures SameNames(s, Tick(s, w, f))
  {
    var s' := Tick(s, w, f);
    forall h | h in s'.clients ensures s'.clients[h].nick == s.clients[h].nick {
      assert s'.clients[h] == TickClient(s, w, f, h, s.clients[h]);
    }
  }

  /** Names are fixed when a connection opens. */
  lemma StepNames(s: System, ev: Event)
    ensures !ev.Open? ==> SameNames(s.server, Step(s, ev).server)
  {
    match ev
    case Message(h, data, e) => MessageNames(s.server, s.world, h, Classify(data), e);
    case Close(h, e) => SetActiveNames(s.server, None, e);
    case GameTick(f) => TickNames(s.server, s.world, f);
    case _ =>
  }

  /** While everyone who connects has a name that decodes, every update reaches its browser,
      whoever holds the seat. */
  lemma {:induction false} DecodableNamesReach(cfg: Config, w: World, evs: seq<Event>, h: Conn)
    requires forall i :: 0 <= i < |evs| && evs[i].Open? ==> Wire.Decodes(evs[i].nick)
    ensures var s := Run(InitSystem(cfg, w), evs);
      AllDecode(s.server) && (h in s.server.clients ==> Sync.Reaches(s, h))
    decreases |evs|
  {
    var s0 := InitSystem(cfg, w);
    if evs == [] {
      NobodyDecodes();
    } else {
      var n := |evs| - 1;
      DecodableNamesReach(cfg, w, evs[..n], h);
      StepNames(Run(s0, evs[..n]), evs[n]);
    }
  }
}
