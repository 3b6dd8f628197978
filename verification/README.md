# Web Fortress, verified

Web Fortress lets several browsers watch and take turns at one Dwarf Fortress. A plugin
captures the game's text screen on the game thread, a websocket thread answers each
browser's requests, and a script in the browser paints what arrives. This project models the
plugin's own logic and proves what its protocol promises.

The model has two layers. `Model` is the server as a state machine on values: connections
opening and closing, every message opcode, the update answer (`tock`), the game thread's tick
(`plugin_onupdate`), the game changing its own window or size, and a browser canvas for each
connection that is fed only by decoded packets. Steps of the two threads interleave in any
order. `Live`, `Handlers`, `Packet` and `Plugin` are the same operations in the form the
plugin has them: clients with byte arrays, shared buffers and globals updated in place, loops
over the client map and over tiles, a pointer running through a one-megabyte packet buffer.
Every one of those methods is proved to take the state from `s` to exactly what the
state machine says, and `Session.Play` that any sequence of handler calls, ticks and changes
of the game is a run of it, so the results about runs are results about them. Clocks, pause state,
menus, map size, what feeding input does to the viewport and whatever `render` leaves on the
screen are inputs.

What each file is for:

| file | content |
|---|---|
| `Bytes`, `Screen` | fixed-width integers, little-endian fields; tiles, buffers, dirty bytes, the x-major index |
| `Name` | player names through encodeURIComponent and decodeURIComponent |
| `Wire`, `Packet` | the update packet: encoder, decoder, round trip; the writer in place |
| `Input` | key mapping, the queued events, the SDL events they become |
| `Model` | the state machine of server and browsers |
| `Sync`, `SyncLaws`, `Traffic` | dirty bytes as a coherence protocol, over all runs |
| `Names`, `Picture`, `Witness` | names that keep updates readable; what is painted; runs that show each failure |
| `Seat`, `Ledger` | the seat, its timers, idle saves, input and camera accounts |
| `Camera`, `Cursor`, `Canvas` | camera batching, the cursor packet, two-pass painting |
| `Frame`, `Live`, `Handlers`, `Plugin` | frame composition and the operations in place |
| `Effects`, `Answer` | what each browser message is for and does; what an answer tells |
| `Session` | whole sessions in place as runs of the state machine |
| `Streambuf` | `asio::basic_streambuf` as a bounded byte queue |
| `Atlas` | the sprite sheet in a linear pixel array |

## What turned out not to hold

Each of these is stated as exactly when the code does what it is for.

- An update answered to a client whose frame does not yet agree with the buffer it will be
  compared with (just connected, first camera move, just seated without a camera) marks stale
  tiles clean. `SyncLaws.TockRightIff` is the condition, `Witness.EarlyUpdateGoesStale` a run
  of four events. `SyncLaws.Unsettles` lists the only events that bring a client there, and
  `SyncLaws.GuardedSafety` proves that waiting for the next tick after them is enough, from
  start-up or from any full refresh.
- The browser decodes the holder's name before it paints (static/js/webfort.js:425) and gives
  up on the whole packet if that throws, while the server has marked every tile sent. An update
  reaches the canvas if and only if the sent name decodes or nothing new was due:
  `SyncLaws.TockExactIff`. A name cut by its length byte in the middle of an escape does not:
  `Wire.EncodedNickDecodesIff`, `Wire.LongNickFails`, `Witness.LongNameLeavesBlank`. Names that
  decode when their owners connect keep every update readable: `Names.DecodableNamesReach`.
- A resize does not dirty the tiles of a client with its own camera: `SyncLaws.ResizeRightIff`
  is the condition, `Witness.ResizeGoesStale` a run. Asking between a resize and its tick goes
  wrong the same way (`Witness.LateUpdateGoesStale`), except on the shared viewport
  (`SyncLaws.SharedSurvivesResize`); `SyncLaws.TockRightIff` covers that moment too.
- A change of graphics mode or atlas repaints nothing that is not due: `Picture.CanvasAfterTock`
  says which tiles still look right.
- A screen 256 wide or high wraps to 0 in the packet header: `Wire.UpdateRoundTrip`.
- A cursor packet of more than 255 entries wraps its count: `Cursor.CursorRoundTrip`.
- A turn request from a connection that was never registered seats nobody's client:
  `Seat.TakeOkIff`, `Seat.TurnOkIff`.
- With the in-game clock the time left can exceed the turn after the clock restarts with the
  year: `Seat.TimeLeftInRangeIff`.
- Camera moves that turn round at an edge can take a spectator elsewhere than a driver:
  `Camera.TurningBackDiffers`; exactly when, for lists of any length, is
  `Camera.WalkIsBatchIff` on an axis and `Camera.SpectatorMatchesDriver` on all three.
- The driver's cursor told to a spectator and the one stamped into that spectator's render
  differ while the virtual pointer has not been placed and the game's own mouse is in view:
  `Cursor.DriverCursorAgrees`, `Witness.IdleMouseDisagrees`.
- `commit` and `consume` pass their count through an `int`, and `consume` adds it to an address:
  `Streambuf.BasicStreambuf.Commit`, `Streambuf.BasicStreambuf.Consume`,
  `Streambuf.LargestDropMovesBack`; a throwing `prepare`
  may already have moved the unread bytes: `Streambuf.ThrowKeepsIff`.
- The background's bright bit is lost on the way to the browser: `Frame.ComposedCell`.
- server/server.cpp:510 says bit 128 of the client count marks the active player; the code
  never sets it, and the browser masks it off. The model follows the code.
- The name in the very update that evicts a player is still that player's (`Model.TockHeader`),
  since it is looked up before the seat is cleared.

## Model

| member | source | states |
|---|---|---|
| Sync.SyncSafety | server/webfort.cpp:461-500 | after any interleaving of any number of clients' events with ticks and resizes, from start-up or any moment at which all of a client's tiles are due, each tile marked clean for it is on its browser's canvas exactly as its frame encodes it, provided its own updates are answered while settled and while the holder's name decodes or nothing new is due, and a resize finds its own-camera clean tiles on the canvas as last compared |
| Sync.StepKeeps | server/webfort.cpp:1223-1230 | under those provisos every single event of either thread preserves the inductive invariant: clean tiles are on screen and equal, on the wire, to every reference buffer they may be compared with next |
| Sync.PassKeeps | server/webfort.cpp:1121-1231 | the own-camera pass keeps that invariant whatever the extra render draws, and leaves reference and frame agreeing everywhere |
| Sync.CaptureKeeps | server/webfort.cpp:461-500 | the shared capture keeps it across resizes and differences |
| Sync.PaintVisited | static/js/webfort.js:265-275 | painting the records of a partly walked screen shows exactly the dirty tiles walked so far and leaves every other cell |
| Sync.ReceiveView | static/js/webfort.js:397-429 | a received update repaints the dirty tiles if the holder's name in it decodes, else none, and keeps the rest, unless the canvas had to be resized, which clears it |
| Sync.TockShowsAll | server/server.cpp:589-614 | from a canvas exact on clean tiles, one update leaves nothing dirty, and the whole frame on the canvas if and only if the sent name decodes or what was due was there already |
| SyncLaws.FullFrameAfterTock | server/server.cpp:584-613 | refinement of full-frame sending: after any guarded run, an update answered to a settled client leaves a canvas equal to the full encoding of its frame, if and only if the holder's name decodes or what was due was there already |
| SyncLaws.TockExactIff | static/js/webfort.js:397-429 | for every state, settled or resized or neither, whose sides fit their header bytes: an update leaves the full frame on the canvas if and only if what was clean was on it at the present size, and the sent name decodes or what was due was there |
| SyncLaws.TickRightIff | server/webfort.cpp:1037-1238 | for every client in every state, every possible next tick leaves it right if and only if the tick clears all or what is clean is on its canvas as it will be compared |
| SyncLaws.SharedSurvivesResize | server/webfort.cpp:475-497 | on the shared viewport an update answered between a resize and its tick does no harm |
| Witness.LateUpdateGoesStale | server/server.cpp:589-613 | a seven-event run in which such an update leaves an own-camera client's tile clean, on no canvas |
| SyncLaws.GuardedSafety | server/server.cpp:490-614 | from start-up or any moment at which all of a client's tiles are due, answering updates only between a tick and the next unsettling event, and while they reach the browser, is enough for sync safety over every run, and then the client is settled |
| SyncLaws.StaysSettled | server/server.cpp:679-812 | connecting, a resize, a spectator's first camera move and taking the seat without a camera are the only events that unsettle a client |
| SyncLaws.TickSettles | server/webfort.cpp:1037-1238 | one tick settles every client at the present size |
| SyncLaws.TickEffect | server/webfort.cpp:489-494 | a tick dirties a tile exactly where the new eight bytes differ from the client's reference, or everywhere on a resize of the shared view or a drained camera move |
| SyncLaws.TockRightIff | server/server.cpp:589-613 | whenever an update is answered, also between a resize and its tick, every possible next tick leaves the client's clean tiles right if and only if what was delivered encodes like its reference or the tick will clear all; for an exact client the update reaches, that its frame did |
| SyncLaws.ResizeRightIff | server/webfort.cpp:1223-1230 | a resize is survived by a client, whatever is rendered, if and only if it shares the viewport or each clean tile of the new size is on its canvas as last compared |
| Witness.ResizeGoesStale | server/webfort.cpp:1223-1230 | a seven-event run in which a resize leaves an own-camera client's tile clean, on no canvas of the new size, and the next update does not send it |
| Witness.EarlyUpdateGoesStale | static/js/webfort.js:197-205 | a four-event run in which the update a browser sends on connecting leaves a tile stale while marked clean |
| Witness.LongNameLeavesBlank | static/js/webfort.js:421-429 | a four-event run in which a settled client's update leaves its tile blank and marked clean, because the holder's 300-byte name is cut inside an escape |
| Names.DecodableNamesReach | server/server.cpp:421-441 | over any run in which everyone connects under a name that decodes, every update reaches its browser, whoever holds the seat |
| Names.ShortNameDecodes | static/js/webfort.js:54 | any name a browser encodes in at most 254 bytes is such a name |
| Name.NameRoundTrip | static/js/webfort.js:425 | decoding an encoded name gives the name back, for any Unicode text |
| Name.EscapesAreUtf8 | static/js/webfort.js:425 | escapes decode only as the shortest UTF-8 spelling of a character, in either case of the digits |
| Name.HexEither | static/js/webfort.js:425 | a hexadecimal digit counts in either case, and nothing else does |
| Name.PrefixDecodesIff | static/js/webfort.js:422-425 | a prefix of an encoded name decodes if and only if it ends between two characters |
| Wire.EncodedNickDecodesIff | server/server.cpp:576-583 | an encoded name as sent decodes if and only if it has at most 254 bytes or the wrapped length falls between two characters |
| Wire.LongNickFails | server/server.cpp:576-583 | fifty e-acutes are 300 bytes and do not decode as sent |
| Picture.CanvasAfterTock | static/js/webfort.js:253-429 | end to end, while graphics mode and atlas change: after any guarded run and an update that reaches the browser, every tile carries the complete painting of the client's present frame under the atlas it was painted with last, and looks right under the present one if and only if this update carried it or it looks the same under both |
| Picture.PaintedIsStroked | static/js/webfort.js:253-429 | over any run the canvas is the complete painting of the records decoded, each under the atlas in use when it came |
| Picture.SameLookIff | static/js/webfort.js:281-318 | a record is painted the same under two atlases if and only if the same of its sprites are found in both |
| Picture.UpdateLooks | static/js/webfort.js:253-429 | painting an update in two passes keeps that so |
| Traffic.TrafficConserved | server/server.cpp:594-611 | over any run at a fixed size, clean tiles now plus tiles dirtied equal clean tiles at the start plus tile records sent |
| Traffic.StepBalance | server/webfort.cpp:1225-1228 | the same account for one event of any kind |
| Traffic.SilenceIsFree | server/webfort.cpp:486-497 | if no tile differs from its reference and nothing clears the dirty bytes, every later update carries no tile record |
| Wire.UpdateRoundTrip | server/server.cpp:504-614 | for any name, clamped camera, flags and records the browser's handler recovers every header field; the size if and only if both dimensions are below 256, and exactly the sent tiles in order if and only if the sent name decodes or there are none |
| Wire.OnUpdateMessage | static/js/webfort.js:355-429 | the browser's loops, with the name decoded between them and nothing painted if that throws, compute the decoding used by the round trip |
| Wire.RecsBytesAt | server/server.cpp:598-610 | record i occupies bytes 9i to 9i+9 of the tile section |
| Packet.WriteUpdate | server/server.cpp:504-614 | the pointer-and-loop writer produces the encoding of the header and the dirty tiles in y-then-x order, stays inside one megabyte, and marks exactly those tiles sent |
| Packet.WriteIfDirty | server/server.cpp:594-611 | the packet-full exit of the tile loop is never taken |
| Packet.WalkEnds | server/server.cpp:590-613 | a walk over all rows has marked every dirty tile below the total and no other byte |
| Seat.SeatSafety | server/server.cpp:175-223 | in every run whose messages come from registered clients, the holder is nobody or a registered client whose ghost cursor is hidden |
| Seat.SeatChange | server/server.cpp:800-806 | the seat is given up only by its holder's request, its holder's close or the timer, is taken only by a request while empty, and never passes from one client to another in one event |
| Seat.TurnOkIff | server/server.cpp:800-806 | a turn request keeps that invariant if and only if the seat is taken or the sender is registered |
| Seat.StampIsTaking | server/server.cpp:196-198 | in every run with registered clients the holder's stamp is the time of the event that seated them |
| Seat.TimerSafety | server/server.cpp:225-240 | in every such run with a monotone clock, an update ends the turn if and only if another client is connected and a full turn has passed since the holder took the seat; else what it reports is the rest of the turn, -1 or within 1 and the turn |
| Seat.TimeLeftInRangeIff | server/server.cpp:225-240 | the reported time is in range if and only if the timer is off, the clock has not run backwards, or the subtraction wraps to -1 |
| Ledger.SavesPerRelease | server/server.cpp:153-173 | over any run idle saves never outnumber seat releases, and an armed timer carries the latest release's time |
| Ledger.SaveIsLate | server/server.cpp:162-173 | each idle save finds the seat empty, more than ten seconds after its latest release |
| Ledger.SavesIff | server/server.cpp:153-173 | over any run an update request saves if and only if it finds the seat empty more than ten seconds after a release not answered by a save yet |
| Ledger.InputConserved | server/webfort.cpp:842-850 | over any run, events drained followed by events queued are exactly, in order, the keys of the seat holder of the moment, escape only from an admin or where safe, the pause keys of seat changes in a running game, and the holder's mouse events |
| Ledger.KeyAuthority | server/server.cpp:684-723 | for every state a key message changes the queue if and only if its sender holds the seat, the key is known, and it is not escape unless from an admin or where safe; then it adds that one key with its own modifiers and nothing else happens |
| Ledger.KeysHaveAuthors | server/input.hpp:125-140 | every key ever pushed in a run comes from a message of the holder of that moment or from a change of the seat |
| Ledger.MovesConserved | server/server.cpp:760-768 | drained plus pending camera deltas equal the deltas sent by seat holders, modulo the accumulator's 32 bits |
| Ledger.MovesConservedExactly | server/webfort.cpp:1045-1048 | and exactly so while no sum leaves the 32-bit range |
| Input.KeyMessageQueuesOne | server/server.cpp:692-722 | an accepted key message queues exactly one event, whatever modifiers it names |
| Input.FlushInputQueue | server/webfort.cpp:842-869 | for any queue, each event whose key the game knows strikes that key once, in order, under its own modifiers, and types its text; the emitted key events nest, text arrives only inside a held key, plain keys report the modifiers that are down, and nothing is left held |
| Input.BurstIsBracketed | server/webfort.cpp:853-868 | one queued event nests and types so from any stream that ends with nothing held |
| Input.BurstStrikesOnce | server/webfort.cpp:862-863 | and strikes its key exactly once, if the game knows it |
| Input.KeysKnown | server/webfort.cpp:756-804 | which key each character and each key code stands for, and which stand for none |
| Input.CodesKnown | server/input.hpp:74-122 | the symbol each key code is given |
| Camera.SpectatorMatchesDriver | server/server.cpp:769-795 | any list of moves takes a spectator where the tick takes a driver who queued the same moves from the same in-range place, if and only if each axis's clamped sum lies between the walks from its two ends |
| Camera.OneWayMatches | server/server.cpp:769-795 | lists that do not turn back on any axis always do |
| Camera.WalkIsBatch | server/webfort.cpp:1049-1065 | for one axis, clamping after every move equals clamping the sum, for any bounds, crossing ones included |
| Camera.WalkIsBatchIff | server/webfort.cpp:1049-1065 | for one axis, any list of moves and any bounds or none above, exactly when clamping after every move equals clamping the sum |
| Camera.WalkBetween | server/server.cpp:780-790 | a walk is the unclamped walk kept between the walks from the two ends |
| Camera.CamMessageRoundTrip | static/js/webfort.js:228-236 | a packed camera move is classified as the move it was |
| Cursor.CursorRoundTrip | static/js/webfort.js:442-480 | the cursor packet never exceeds 4096 bytes, and the browser draws exactly the written cursors, for any names, if and only if there are at most 255 |
| Cursor.AllFitIff | server/server.cpp:659-660 | nothing is left out if and only if all entries fit the buffer |
| Cursor.OnCursorMessage | static/js/webfort.js:455-470 | the browser's loop computes the reading used by the round trip |
| Cursor.SpectatorCursor | server/server.cpp:742-746 | a spectator's pointer appears at another client at sender tile plus sender camera minus receiver camera, if and only if that is in view |
| Cursor.CursorsDrawnIff | server/server.cpp:619-669 | when the visible cursors fit the packet and its count byte, a browser draws a cursor if and only if it is of another client in its view, at the tile where that client is seen, under that client's name as sent and in the colour of its rank |
| Cursor.PointerIsDrawn | server/server.cpp:730-747 | so a spectator's pointer message ends as a drawn cursor at the translated tile |
| Cursor.DriverCursor | server/server.cpp:637-652 | the driver is seen where the game's mouse is, from the receiver's camera, if it is in view |
| Cursor.OwnCursorHidden | server/server.cpp:627-628 | no client is told of its own cursor |
| Cursor.DriverCursorAgrees | server/webfort.cpp:1171-1197 | after a tick, the driver's position told to an own-camera spectator is the one stamped for that spectator's render, if and only if before the tick a move or press has placed the virtual pointer or the game's mouse is off or out of that view |
| Witness.IdleMouseDisagrees | server/webfort.cpp:1171-1197 | a four-event run after which a tick makes the two differ |
| Canvas.TwoPassIff | static/js/webfort.js:253-353 | deferring text equals painting every record at once if and only if no text record is overtaken by a later record for its tile |
| Canvas.PaintOrder | static/js/webfort.js:281-352 | bottom to top on each tile: background, the terrain's sprite, the creature's above it; or else a glyph, of the text font on text tiles |
| Canvas.TockPaintsOnce | server/server.cpp:590-613 | an update never repeats a tile, so for it the two are equal |
| Canvas.AnyOrder | static/js/webfort.js:253-353 | and any order of the same records paints the same canvas |
| Canvas.Context.RenderUpdate | static/js/webfort.js:253-353 | the two loops with the remembered offsets compute the two passes |
| Frame.FillScreenBuffer | server/webfort.cpp:337-456 | fills the screen's tiles with the composed frame and leaves every later tile, or changes nothing and says so when the size is out of range |
| Frame.OverlayShows | server/webfort.cpp:412-420 | where the overlay is in use and has text, the browser decodes its character, the first palette entry nearest to its foreground, and the one nearest to its background without the bright bit |
| Frame.BaseColoursShow | server/webfort.cpp:408-410 | everywhere else the same of the base tile's colours |
| Frame.BaseCharacterShows | server/webfort.cpp:422-430 | and the base's character if it is text, else the first font character drawn with the tile's texture, else the base's |
| Frame.TexturesShow | server/webfort.cpp:440-453 | the text flag and both textures, each if it fits sixteen bits, go along |
| Frame.ComposedCell | server/webfort.cpp:400-453 | the same for a tile as composed |
| Frame.NearestIsFirstMinimum | server/webfort.cpp:355-366 | the matched colour is the first of the nearest palette entries |
| Frame.MatchColor | server/webfort.cpp:355-366 | the scan from the largest int finds it |
| Frame.FontMapFirst | server/webfort.cpp:372-378 | a texture maps to the first character drawn with it |
| Session.Play | server/server.cpp:881-886 | any sequence of openings, closings, messages, ticks and changes of the game over the shared state in place is a run of the state machine, input for event |
| Handlers.OnMessage | server/server.cpp:679-812 | the dispatch takes the shared state to the state machine's next state and answers exactly the messages that fall through to an update |
| Answer.AnswerTells | server/server.cpp:490-583 | what a client's browser decodes from its update: the holder flag, the empty flag and the number connected as the answer leaves them, the time the timer has left, the client's own camera or else the viewport cut to sixteen bits, the modes of environment and configuration, and the holder's name |
| Handlers.Tock | server/server.cpp:490-677 | the update answer: new state, first packet and cursor packet are those of the state machine, within their buffers |
| Handlers.SetActive | server/server.cpp:175-223 | a real change hides both players' ghost cursors, restarts the taker's clock and dirties its whole screen, or arms the idle timer on release, and queues the pause key unless the game is paused; nothing else of the state differs |
| Handlers.GetTimeLeft | server/server.cpp:225-240 | the timer runs only with a limit, a holder and a second client; reports the remainder or that the turn is up, with nothing changed |
| Handlers.IdleTimer | server/server.cpp:162-173 | saves exactly when the timer is armed, the seat is empty and more than ten seconds passed |
| Handlers.CamMove | server/server.cpp:751-799 | a holder's move is queued, a spectator's clamped and applied with a full re-send |
| Handlers.CursorMove | server/server.cpp:730-747 | stores a spectator's pointer in world tiles, never the holder's |
| Handlers.OnKey | server/server.cpp:684-723 | queues one event from the holder, escape only for admins or where it is safe |
| Handlers.OnOpen | server/server.cpp:408-452 | refuses wrong versions, a full server and the reserved name; otherwise a fresh client with buffers of its own joins and is told the map's size |
| Effects.AdmittedIff | server/server.cpp:408-428 | a connection is let in if and only if it speaks the protocol, there is room and its name is not the reserved one |
| Effects.NobodyIs | server/server.cpp:425 | the reserved name is __NOBODY |
| Effects.NewcomerStarts | server/server.hpp:49-57 | whoever is let in starts on the viewport with everything due and nothing drawn, and nobody else is touched |
| Effects.RoomKept | server/server.cpp:415-428 | over any run there are never more clients than allowed, and none has the reserved name |
| Effects.KeysArrive | static/js/webfort.js:596-640 | every key message the browser sends arrives as the key, the character and the modifiers that were pressed |
| Effects.OthersArrive | static/js/webfort.js:691-712 | every mouse, pointer, connect, turn and update message arrives as what it is |
| Effects.MakesDue | server/server.cpp:748-798 | a refresh, a spectator's camera move and taking the empty seat make all of the sender's tiles due; nothing but an update touches what is due otherwise, for anyone |
| Effects.RefreshResends | server/server.cpp:748-750 | after a refresh every tile of the screen is in the next update |
| Effects.SeatHidesPointers | server/server.cpp:180-194 | a change of the seat hides the spectator pointers of both players |
| Handlers.MapInfoRoundTrip | server/server.cpp:469-487 | the browser learns the map's size in tiles, on each axis if and only if it fits sixteen bits |
| Handlers.OnClose | server/server.cpp:454-464 | a closing holder leaves the seat empty, and the client is gone |
| Handlers.CursorLoop | server/server.cpp:619-669 | the loop over the client map writes the longest prefix of visible cursors that fits |
| Plugin.OnUpdate | server/webfort.cpp:1037-1238 | one tick in place takes state and game globals to the state machine's tick, with frames composed from the drawn screens; the extra passes it ran start from that capture and put the game's screen, viewport and mouse back; the key events it emits nest and type what was queued |
| Plugin.ExtraPasses | server/webfort.cpp:1120-1238 | for any number of own-camera clients and any effect of render, viewport, screen, overlay in use and mouse end at their prior values, and exactly the clients looking elsewhere are rendered, at their camera, with the driver's pointer translated |
| Plugin.ShootAndRestore | server/webfort.cpp:1134-1220 | one save, render, compose, restore |
| Plugin.SameGlyphs | server/webfort.cpp:1209-1213 | after the passes the game's screen shows the same glyph and colours on every tile as before |
| Plugin.PassedIsLevel | server/webfort.cpp:1229 | after its pass an own-camera client's reference equals its frame |
| Plugin.CaptureScreenBuffer | server/webfort.cpp:461-500 | the capture loop gives each sharing client the new frame and its differences, then remembers frame and size |
| Plugin.DriveCamera | server/webfort.cpp:1045-1084 | queued deltas move and clamp the viewport, dirty the driver's tiles, and the driver's camera is read back |
| Plugin.ApplyMice | server/webfort.cpp:967-978 | the virtual pointer rests on the last move or press, or where it was if there is none; the game's mouse on the last event |
| Effects.MouseAfterTick | server/webfort.cpp:1086-1108 | after a tick the game's mouse is on the tile of the last move or press ever made, failing that of the last mouse event, else where it was |
| Effects.OthersStay | server/webfort.cpp:1076-1084 | a tick moves nobody else's camera |
| Effects.DriverFollowsViewport | server/webfort.cpp:1072-1084 | after a tick the driver's camera is the drained viewport, and theirs |
| Plugin.PointerInTile | server/webfort.cpp:886-892 | the precise mouse position is the middle of its tile |
| Plugin.PointerForSpectator | server/webfort.cpp:1171-1197 | in a spectator's render the pointer is on the driver's world tile if in view, else all mouse fields are -1 |
| Streambuf.Replay | server/asio/asio/basic_streambuf.hpp:214-254 | any list of prepare-and-partly-commit appends, single bytes and drops on a fresh buffer of any maximum size is the same list on a bounded byte queue, up to the first request that does not fit, when each count really moved survives its int and its address |
| Streambuf.SmallMaximumFits | server/asio/asio/basic_streambuf.hpp:233-254 | under a maximum that fits an int and drops that stay below the top of memory every count does |
| Streambuf.LargestDropMovesBack | server/asio/asio/basic_streambuf.hpp:247-254 | dropping the largest size moves the get position back by one instead of emptying the queue |
| Streambuf.GbumpIff | server/asio/asio/basic_streambuf.hpp:247-254 | for every size, address and count, exactly when the get position moves by min(n, size) |
| Streambuf.BasicStreambuf.Reserve | server/asio/asio/basic_streambuf.hpp:308-346 | succeeds if and only if size plus n is within the maximum, then keeps the unread bytes and makes room; a failure leaves the positions |
| Streambuf.BasicStreambuf.Commit | server/asio/asio/basic_streambuf.hpp:233-238 | appends exactly the first min(n, room) prepared bytes, if and only if that fits an int |
| Streambuf.BasicStreambuf.Consume | server/asio/asio/basic_streambuf.hpp:247-254 | drops exactly the first min(n, size) bytes, if and only if the sum of address and n does not wrap and that count fits an int, or it wraps and n as an int happens to be the size |
| Streambuf.BasicStreambuf.Overflow | server/asio/asio/basic_streambuf.hpp:283-306 | appends one byte; fails if and only if the queue is full, with contents unchanged |
| Streambuf.BasicStreambuf.Size | server/asio/asio/basic_streambuf.hpp:158-161 | the length of the unread contents, never above the maximum |
| Streambuf.BasicStreambuf.Underflow | server/asio/asio/basic_streambuf.hpp:263-275 | the next byte or end of file, contents unchanged |
| Streambuf.ThrowKeepsIff | server/asio/asio/basic_streambuf.hpp:308-346 | the shift a throwing prepare has done is harmless for all contents if and only if nothing or at least half was consumed |
| Atlas.BuildAtlas | server/webfort.cpp:647-713 | for any sprites and tile size, every write is in bounds, each cell ends holding its own sprite cut to the cell, and the index lists exactly the copied ones, each with the place where its pixels are |
| Atlas.LayoutTight | server/webfort.cpp:647-653 | the sheet has min(num, 64) columns and just the rows they need |
| Atlas.CellInside | server/webfort.cpp:648-669 | each cell lies inside the atlas although placement uses 64 columns and the width min(num, 64) |
| Atlas.CellsApart | server/webfort.cpp:668-669 | two cells never share a pixel |
| Atlas.BlitSurfaceTile | server/webfort.cpp:530-555 | the cut sprite replaces its rectangle and every other pixel keeps its colour |
| Atlas.SheetCell | server/webfort.cpp:667-713 | sprites placed later never change an earlier cell |

## Left out

- Sync.SyncSafety: promises nothing between an unsettling event and the next tick, under a holder's name that does not decode, or across a resize that finds clean tiles not shown, because the code does not; the exact conditions are proved instead.
- Ledger.MovesConserved: is modulo 2^32, because the accumulators wrap.
- Streambuf.Replay: asks that each count really appended or dropped survive the int and the address it passes through, because the code does; each operation states its own exact condition without that. Address overflow is taken to wrap, as 64-bit hardware does; C++ leaves it undefined.
- Handlers.Tock: is stated for screens of at most 256 by 256, the size of the dirty and frame buffers; larger ones index past them.
- Plugin.ExtraPasses: is stated for sides of at most 256; beyond that the capture refuses the screen while the source still runs these passes over what the buffers held. It does not claim `gps->screentexpos` restored, because the code does not restore it.
- Session.Play: keeps the sides of the screen between 0 and 256 throughout, as Handlers.Tock and Plugin.ExtraPasses ask.
- Plugin.OnUpdate: feeding input moves the viewport and redraws the screen arbitrarily but leaves the screen's size, the map and the stamped mouse; the enabler's button flags and what the game does with the fed keys are not modelled.
- Data races: each handler and each tick is one atomic step; the unlocked reads of the client map and the viewport are not examined.
- Announcements, sockets, the HTTP routes, websocketpp, SDL, DFHack, logging, file reads and plugin start-up and shutdown.
- Null `gps`, `gps->screen`, `gps->screen_top`, `window_x` and null buffers: present once the plugin runs.
- Signed overflow of camera, cursor and pixel sums, undefined in C++: positions are unbounded integers, except where the source uses wrapping atomics or narrows.
- A tile is a record of its eight bytes rather than eight array slots; `Screen.CopyTiles` and `Screen.MarkDifferences` work per tile.
- `tock`'s static packet buffers are allocated per call; nothing survives in them.
- Client memory: a closed client leaves the map, its deletion is not modelled.
- `is_text_tile`'s layout constants: an arbitrary predicate on tiles.
- The browser's tile width is 16, so the background is taken modulo 16; the canvas holds draws per tile, not pixels, and scaling, status lines and the request pacing are omitted. A page whose handler threw asks for no more updates by itself; here any request may still arrive.
- The name as decoded is a sequence of code points; how the page shows it is omitted.
- The browser's atlas fetching and its retries: at each update some arbitrary atlas is loaded; a sprite is its number, so two atlases that draw one number differently are not told apart.
- SDL key constants are names; whether the game understands a key symbol (arrows arrive at 273 and above, which the SDL mapping does not know) is not claimed.
- Atlas.BuildAtlas: takes pixels already decoded, so SDL pixel formats, the disk fallback, PNG and JSON encoding are omitted; placement and non-interference are what is proved.
- Configuration and query-string parsing: the configuration is a value.
- Allocation failure, and the rest of asio.
- The order of the client map is an arbitrary listing; a cursor's colour is its position in it, not its role.
