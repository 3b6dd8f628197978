/** The server's mutable state: the Client record (server/server.hpp) with its buffers, and
    the globals that server.cpp and webfort.cpp share. */
module Live {
  import opened Bytes
  import opened Screen
  import Input
  import opened Wire
  import Frame
  import M = Model

  /** The bound checks on a moved camera, one assignment after another. */
  method Clamp(p: Pos, size: Option<M.MapSize>, d: Dims) returns (q: Pos)
    ensures q == M.ClampCam(p, size, d)
  {
    var x, y, z := p.x, p.y, p.z;
    if x < -30 { x := -30; }
    if y < -30 { y := -30; }
    if z < 0 { z := 0; }
    if size.Some? {
      var m := size.value;
      if x > m.sx * 16 - d.w + 30 { x := m.sx * 16 - d.w + 30; }
      if y > m.sy * 16 - d.h + 30 { y := m.sy * 16 - d.h + 30; }
      if m.sz > 0 && z >= m.sz { z := m.sz - 1; }
    }
    q := Pos(x, y, z);
  }

  class Client {
    var nick: M.Nick
    var admin: bool
    var atime: int
    const mod: array<Byte>
    const ownSc: array<Tile>
    const ownPrev: array<Tile>
    var cursorX: int
    var cursorY: int
    var cursorActive: bool
    var cam: Pos
    var hasOwnCam: bool

    ghost predicate Valid() {
      mod.Length == CELLS && ownSc.Length == CELLS && ownPrev.Length == CELLS && ownSc != ownPrev
    }

    ghost function State(): M.Client
      requires Valid()
      reads this, mod, ownSc, ownPrev
    {
      M.Client(nick, admin, atime, mod[..], ownSc[..], ownPrev[..], cursorX, cursorY, cursorActive, cam, hasOwnCam)
    }

    ghost function Repr(): set<object> { {this, mod, ownSc, ownPrev} }

    /** No buffer is shared with another client. */
    ghost predicate Apart(c: Client) {
      && this != c && mod != c.mod
      && ownSc != c.ownSc && ownSc != c.ownPrev && ownPrev != c.ownSc && ownPrev != c.ownPrev
    }

    constructor (nick: M.Nick, admin: bool)
      ensures Valid() && fresh(mod) && fresh(ownSc) && fresh(ownPrev)
      ensures State() == M.NewClient(nick, admin)
    {
      this.nick, this.admin, atime := nick, admin, 0;
      mod := new Byte[CELLS](_ => 0);
      ownSc := new Tile[CELLS](_ => BLANK);
      ownPrev := new Tile[CELLS](_ => BLANK);
      cursorX, cursorY, cursorActive := -1, -1, false;
      cam, hasOwnCam := M.ORIGIN, false;
      new;
      assert mod[..] == AllDirty() && ownSc[..] == BlankBuffer() && ownPrev[..] == BlankBuffer();
    }

    method ShowCursor(x: int, y: int)
      requires Valid()
      modifies this
      ensures State() == old(State()).(cursorX := x, cursorY := y, cursorActive := true)
    {
      cursorX, cursorY, cursorActive := x, y, true;
    }

    /** A spectator's camera move. */
    method Pan(w: M.World, d: Pos)
      requires Valid()
      modifies this, mod
      ensures State() == M.PanSpectator(old(State()), w, d)
    {
      if !hasOwnCam {
        cam := w.window;
        hasOwnCam := true;
      }
      cam := Clamp(Pos(cam.x + d.x, cam.y + d.y, cam.z + d.z), w.size, w.dims);
      ClearMod();
    }

    /** capture_screen_buffer's loop body, for a client on the shared viewport. */
    method Capture(sc: array<Tile>, scPrev: array<Tile>, d: Dims, cap: Dims)
      requires Valid() && sc.Length == CELLS && scPrev.Length == CELLS && ownSc != sc && ownSc != scPrev
      modifies mod, ownSc
      ensures State() == M.CaptureClient(old(State()), sc[..], scPrev[..], d, cap)
    {
      CopyTiles(ownSc, sc, d.Total());
      if d != cap {
        ClearMod();
      } else {
        MarkDifferences(mod, sc, scPrev, d.Total());
      }
    }

    /** The delta computation of the per-client pass. */
    method Delta(n: nat)
      requires Valid() && n <= CELLS
      modifies mod, ownPrev
      ensures State() == old(State()).(mod := Invalidate(old(mod[..]), ownSc[..], old(ownPrev[..]), n),
                                       ownPrev := Overwrite(old(ownPrev[..]), ownSc[..], n))
    {
      MarkDifferences(mod, ownSc, ownPrev, n);
      CopyTiles(ownPrev, ownSc, n);
    }

    /** The driver's camera is read back from the viewport. */
    method Follow(window: Pos)
      requires Valid()
      modifies this
      ensures State() == old(State()).(cam := window, hasOwnCam := true)
    {
      cam := window;
      hasOwnCam := true;
    }

    /** memset(mod, 0, sizeof(mod)) */
    method ClearMod()
      requires Valid()
      modifies mod
      ensures mod[..] == AllDirty()
    {
      forall i | 0 <= i < mod.Length {
        mod[i] := 0;
      }
    }
  }

  class Globals {
    const cfg: M.Config
    const nobody: Client
    const sc: array<Tile>
    const scPrev: array<Tile>
    var clients: map<M.Conn, Client>
    var active: Option<M.Conn>
    var timedOut: bool
    var itime: int
    var keys: seq<Input.KeyEvent>
    var mice: seq<Input.MouseEvent>
    var pending: Pos
    var tileX: int
    var tileY: int
    var cap: Dims
    // The game's side.
    var window: Pos
    var dims: Dims
    var size: Option<M.MapSize>
    var gps: Frame.Gps

    /** Every client has its own buffers. Only the client map can affect this. */
    ghost predicate Valid()
      reads this`clients
    {
      && sc.Length == CELLS && scPrev.Length == CELLS && sc != scPrev
      && nobody.Valid() && OffStage(nobody)
      && (forall h :: h in clients ==>
           clients[h].Valid() && OffStage(clients[h]) && clients[h].Apart(nobody) && nobody.Apart(clients[h]))
      && (forall h, k :: h in clients && k in clients && h != k ==> clients[h].Apart(clients[k]))
    }

    ghost predicate OffStage(c: Client) {
      c.ownSc != sc && c.ownSc != scPrev && c.ownPrev != sc && c.ownPrev != scPrev
    }

    ghost function Footprint(): set<object>
      reads this`clients
    {
      {this, sc, scPrev} + nobody.Repr() + ClientObjects()
    }

    ghost function ClientObjects(): set<object>
      reads this`clients
    {
      (set h | h in clients :: clients[h] as object) + (set h | h in clients :: clients[h].mod as object)
      + (set h | h in clients :: clients[h].ownSc as object) + (set h | h in clients :: clients[h].ownPrev as object)
    }

    ghost function ClientStates(): map<M.Conn, M.Client>
      requires Valid()
      reads this, Footprint()
    {
      map h | h in clients :: clients[h].State()
    }

    ghost function State(): M.Server
      requires Valid()
      reads this, Footprint()
    {
      M.Server(cfg, ClientStates(), nobody.State(), active, timedOut, itime, keys, mice, pending, tileX, tileY,
               sc[..], scPrev[..], cap)
    }

    function World(): M.World
      reads this
    {
      M.World(window, dims, size, gps.mouse.x, gps.mouse.y)
    }

    /** Start-up: no clients, empty seat, a null client named __NOBODY. */
    constructor (cfg: M.Config, w: M.World, gps: Frame.Gps)
      requires w.mouseX == gps.mouse.x && w.mouseY == gps.mouse.y
      ensures Valid() && fresh(Footprint()) && State() == M.InitServer(cfg) && World() == w
    {
      this.cfg := cfg;
      nobody := new Client(M.NOBODY, false);
      sc := new Tile[CELLS](_ => BLANK);
      scPrev := new Tile[CELLS](_ => BLANK);
      clients, active := map[], None;
      timedOut, itime := true, 0;
      keys, mice, pending, tileX, tileY := [], [], M.ORIGIN, -1, -1;
      cap := Dims(-1, -1);
      window, dims, size := w.window, w.dims, w.size;
      this.gps := gps;
      new;
      assert sc[..] == BlankBuffer() && scPrev[..] == BlankBuffer();
    }

    /** get_client */
    function GetClient(h: M.Conn): Client
      reads this`clients
    {
      if h in clients then clients[h] else nobody
    }

    /** Everyone but the client of h, and the shared buffers, is untouched. */
    twostate predicate OnlyClient(h: M.Conn)
      reads this, Footprint()
    {
      && clients == old(clients) && unchanged(sc) && unchanged(scPrev)
      && (h in clients ==> Same(nobody))
      && (forall k :: k in clients && k != h ==> Same(clients[k]))
    }

    twostate predicate Same(c: Client)
      reads c, c.mod, c.ownSc, c.ownPrev
    {
      unchanged(c) && unchanged(c.mod) && unchanged(c.ownSc) && unchanged(c.ownPrev)
    }

    twostate lemma OnlyClientStates(h: M.Conn)
      requires old(Valid()) && OnlyClient(h)
      ensures Valid()
      ensures ClientStates()
           == if h in clients then old(ClientStates())[h := GetClient(h).State()] else old(ClientStates())
      ensures nobody.State() == if h in clients then old(nobody.State()) else GetClient(h).State()
      ensures sc[..] == old(sc[..]) && scPrev[..] == old(scPrev[..])
    {
    }

    /** The fields of the state that are not buffers or clients. */
    twostate predicate SameFields()
      reads this
    {
      && active == old(active) && timedOut == old(timedOut) && itime == old(itime) && keys == old(keys)
      && mice == old(mice) && pending == old(pending) && tileX == old(tileX) && tileY == old(tileY) && cap == old(cap)
    }

    /** One client changed, and nothing else of the state. */
    twostate lemma OnlyClientState(h: M.Conn)
      requires old(Valid()) && OnlyClient(h) && SameFields()
      ensures Valid() && State() == M.Put(old(State()), h, GetClient(h).State())
    {
      OnlyClientStates(h);
    }

    /** No client and no shared buffer is touched. */
    twostate predicate Quiet()
      reads this, Footprint()
    {
      && clients == old(clients) && unchanged(sc) && unchanged(scPrev) && Same(nobody)
      && (forall k :: k in clients ==> Same(clients[k]))
    }

    twostate lemma QuietStates()
      requires old(Valid()) && Quiet()
      ensures Valid() && ClientStates() == old(ClientStates()) && nobody.State() == old(nobody.State())
      ensures sc[..] == old(sc[..]) && scPrev[..] == old(scPrev[..])
      ensures SameFields() ==> State() == old(State())
    {
      ClientsApart();
    }

    /** Writing the shared buffers does not touch any client. */
    twostate lemma ClientsApart()
      requires old(Valid()) && clients == old(clients)
      requires Same(nobody) && forall k :: k in clients ==> Same(clients[k])
      ensures Valid() && ClientStates() == old(ClientStates()) && nobody.State() == old(nobody.State())
    {
    }

    /** A byte buffer that is no client's. */
    ghost predicate Foreign(a: array<Byte>)
      reads this`clients
    {
      a != nobody.mod && forall h :: h in clients ==> a != clients[h].mod
    }

    /** Nothing at all happened. */
    twostate predicate Still()
      reads this, Footprint()
    {
      old(Valid()) && Valid() && Kept() && State() == old(State())
    }

    twostate lemma StayedStill()
      requires old(Valid()) && Quiet() && SameFields() && Kept()
      ensures Still()
    {
      QuietStates();
    }

    /** A new client joins with buffers of its own. */
    twostate lemma JoinStates(h: M.Conn, new c: Client)
      requires old(Valid()) && fresh(c) && fresh(c.mod) && fresh(c.ownSc) && fresh(c.ownPrev) && c.Valid()
      requires clients == old(clients)[h := c]
      requires unchanged(sc) && unchanged(scPrev) && Same(nobody)
        && forall k :: k in old(clients) ==> Same(old(clients)[k])
      ensures Valid() && ClientStates() == old(ClientStates())[h := c.State()]
      ensures nobody.State() == old(nobody.State())
    {
    }

    twostate lemma JoinFootprint(h: M.Conn, new c: Client)
      requires fresh(c) && fresh(c.mod) && fresh(c.ownSc) && fresh(c.ownPrev) && clients == old(clients)[h := c]
      ensures fresh(Footprint() - old(Footprint()))
    {
    }

    twostate lemma LeaveStates(h: M.Conn)
      requires old(Valid()) && clients == old(clients) - {h}
      requires unchanged(sc) && unchanged(scPrev) && Same(nobody) && forall k :: k in clients ==> Same(clients[k])
      ensures Valid() && ClientStates() == old(ClientStates()) - {h}
      ensures nobody.State() == old(nobody.State())
    {
    }

    twostate lemma LeaveFootprint(h: M.Conn)
      requires clients == old(clients) - {h}
      ensures Footprint() <= old(Footprint())
    {
    }

    lemma ClientCount()
      requires Valid()
      ensures |State().clients| == |clients|
    {
      assert ClientStates().Keys == clients.Keys;
      assert |ClientStates().Keys| == |clients.Keys|;
    }

    /** The same clients, and nothing of the game's own is touched. */
    twostate predicate Kept()
      reads this
    {
      clients == old(clients) && Footprint() == old(Footprint())
        && unchanged(this`window, this`dims, this`size, this`gps)
    }
  }
}
