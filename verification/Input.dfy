/** The key and mouse bridge: what the WebSocket side queues (server/input.hpp) and
    what the game thread makes of it (server/webfort.cpp, input injection). */
module Input {
  import opened Bytes

  /** The SDL::Mod bits a queued key carries. */
  datatype Mods = Mods(shift: bool, ctrl: bool, alt: bool)

  const NO_MODS := Mods(false, false, false)

  datatype KeyEvent = KeyEvent(mods: Mods, sym: int, unicode: int)

  datatype MouseKind = Move | Down | Up | Wheel | Other

  datatype MouseEvent = MouseEvent(x: Byte, y: Byte, button: Byte, kind: MouseKind)

  const K_UNKNOWN := 0
  const K_ESCAPE := 27
  const K_SPACE := 32
  const K_RSHIFT := 303
  const K_LSHIFT := 304
  const K_RCTRL := 305
  const K_LCTRL := 306
  const K_RALT := 307
  const K_LALT := 308

  predicate IsModifierSym(sym: int) { K_RSHIFT <= sym <= K_LALT }

  /** Browser key codes to the plugin's own key vocabulary. */
  function MapInputCode(code: Byte): int {
    if 96 <= code <= 105 then 256 + (code - 96)          // keypad digits
    else if code == 144 then 294                         // num lock
    else if code == 111 then 267 else if code == 106 then 268
    else if code == 109 then 269 else if code == 107 then 270
    else if code == 33 then 280 else if code == 34 then 281
    else if code == 35 then 279 else if code == 36 then 278
    else if code == 46 then 127
    else if 112 <= code <= 123 then 282 + (code - 112)   // function keys
    else if code == 37 then 276 else if code == 39 then 275
    else if code == 38 then 273 else if code == 40 then 274
    else if code == 188 then 60 else if code == 190 then 62
    else if code <= 177 then code
    else K_UNKNOWN
  }

  /** simkey: releases, empty keys and bare modifiers are dropped. */
  function SimKey(q: seq<KeyEvent>, down: bool, mods: Mods, sym: int, unicode: int): seq<KeyEvent> {
    if !down || (sym == K_UNKNOWN && unicode == 0) || IsModifierSym(sym) then q
    else q + [KeyEvent(mods, sym, unicode)]
  }

  /** The key symbol a key message names. */
  function MessageKey(code: Byte, ch: Byte): int {
    if ch != 0 then ch else MapInputCode(code)
  }

  predicate Bit(v: Byte, k: int)
    requires k > 0
  {
    v / k % 2 == 1
  }

  function JsMods(js: Byte): Mods {
    Mods(Bit(js, 2), Bit(js, 4), Bit(js, 1))
  }

  function SimIf(c: bool, q: seq<KeyEvent>, down: bool, sym: int): seq<KeyEvent> {
    if c then SimKey(q, down, NO_MODS, sym, 0) else q
  }

  /** The simkey calls of one accepted key message, in the order on_message makes them. */
  function KeyCalls(q: seq<KeyEvent>, k: int, ch: Byte, js: Byte): seq<KeyEvent> {
    var m := JsMods(js);
    var q1 := SimIf(m.alt, q, true, K_LALT);
    var q2 := SimIf(m.shift, q1, true, K_LSHIFT);
    var q3 := SimIf(m.ctrl, q2, true, K_LCTRL);
    var q4 := SimKey(q3, true, m, k, ch);
    var q5 := SimKey(q4, false, m, k, ch);
    var q6 := SimIf(m.alt, q5, false, K_LALT);
    var q7 := SimIf(m.shift, q6, false, K_LSHIFT);
    SimIf(m.ctrl, q7, false, K_LCTRL)
  }

  /** However many modifiers are named, an accepted key message queues one event. */
  lemma KeyMessageQueuesOne(q: seq<KeyEvent>, code: Byte, ch: Byte, js: Byte)
    requires MessageKey(code, ch) != K_UNKNOWN
    ensures KeyCalls(q, MessageKey(code, ch), ch, js)
         == q + [KeyEvent(JsMods(js), MessageKey(code, ch), ch)]
  {
    assert !IsModifierSym(MessageKey(code, ch));
  }

  // ----- the game thread's half -----

  datatype SdlKey = NoKey | Ascii(c: int) | Fn(n: int)
                  | Backspace | Tab | Return | Escape | PageUp | PageDown | End | Home
                  | Left | UpArrow | Right | DownArrow | Insert | Delete
                  | LShift | LCtrl | LAlt
  {
    predicate IsModifier() { LShift? || LCtrl? || LAlt? }
  }

  predicate Printable(u: int) { 0x20 <= u <= 0x7E }

  function LowerCase(c: int): int {
    if 'A' as int <= c <= 'Z' as int then c + 32 else c
  }

  function ToSdlKey(sym: int, unicode: int): SdlKey {
    if Printable(unicode) then Ascii(LowerCase(unicode)) else
    match sym
    case 8 => Backspace case 9 => Tab case 13 => Return case 27 => Escape case 32 => Ascii(32)
    case 33 => PageUp case 34 => PageDown case 35 => End case 36 => Home
    case 37 => Left case 38 => UpArrow case 39 => Right case 40 => DownArrow
    case 45 => Insert case 46 => Delete
    case _ =>
      if 112 <= sym <= 123 then Fn(sym - 111)
      else if Printable(sym) then Ascii(LowerCase(sym))
      else NoKey
  }

  datatype SdlEvent = KeyDown(key: SdlKey, mods: Mods) | KeyUp(key: SdlKey, mods: Mods) | TextInput(ch: int)

  /** wf_push_sdl_key: one key event, and text for printable unmodified presses. */
  function PushSdlKey(out: seq<SdlEvent>, key: SdlKey, mods: Mods, down: bool, unicode: int): seq<SdlEvent> {
    var out1 := out + [if down then KeyDown(key, mods) else KeyUp(key, mods)];
    if down && Printable(unicode) && !mods.ctrl && !mods.alt then out1 + [TextInput(unicode)] else out1
  }

  function PushIf(c: bool, out: seq<SdlEvent>, key: SdlKey, down: bool): seq<SdlEvent> {
    if c then PushSdlKey(out, key, NO_MODS, down, 0) else out
  }

  /** Modifiers go down shift first and come up in the opposite order. */
  function PressMods(out: seq<SdlEvent>, m: Mods): seq<SdlEvent> {
    PushIf(m.alt, PushIf(m.ctrl, PushIf(m.shift, out, LShift, true), LCtrl, true), LAlt, true)
  }

  function ReleaseMods(out: seq<SdlEvent>, m: Mods): seq<SdlEvent> {
    PushIf(m.shift, PushIf(m.ctrl, PushIf(m.alt, out, LAlt, false), LCtrl, false), LShift, false)
  }

  function StrikeKey(out: seq<SdlEvent>, key: SdlKey, m: Mods, unicode: int): seq<SdlEvent> {
    PushSdlKey(PushSdlKey(out, key, m, true, unicode), key, m, false, unicode)
  }

  /** What the flush loop emits for one queued event. */
  function FlushOne(out: seq<SdlEvent>, ev: KeyEvent): seq<SdlEvent> {
    var key := ToSdlKey(ev.sym, ev.unicode);
    if key.NoKey? then out
    else ReleaseMods(StrikeKey(PressMods(out, ev.mods), key, ev.mods, ev.unicode), ev.mods)
  }

  /** The drain loop, as the source runs it: each event appends its burst. The result
      is what a keyboard could have produced, with nothing left held: every queued key the
      game knows is struck once, in order, under its own modifiers, and types its text. */
  method FlushInputQueue(local: seq<KeyEvent>) returns (out: seq<SdlEvent>)
    ensures Replay([], out) == Some([])
    ensures Typed(out) == TypedBy(local) && Struck(out) == StruckBy(local)
  {
    out := [];
    for i := 0 to |local|
      invariant Replay([], out) == Some([])
      invariant Typed(out) == TypedBy(local[..i]) && Struck(out) == StruckBy(local[..i])
    {
      BurstIsBracketed(out, local[i]);
      BurstStrikesOnce(out, local[i]);
      assert local[..i + 1][..i] == local[..i];
      out := FlushOne(out, local[i]);
    }
    assert local[..|local|] == local;
  }

  /** A keyboard watching the event stream: keys nest, text needs a held key, and a
      plain key reports exactly the modifiers that are down. */
  function Replay(held: seq<SdlKey>, evs: seq<SdlEvent>): Option<seq<SdlKey>>
    decreases |evs|
  {
    if evs == [] then Some(held) else
    var rest := Replay(held, evs[..|evs| - 1]);
    if rest.None? then None else Press(rest.value, evs[|evs| - 1])
  }

  function Press(held: seq<SdlKey>, ev: SdlEvent): Option<seq<SdlKey>> {
    match ev
    case KeyDown(k, m) =>
      if k !in held && Agrees(held, k, m) then Some(held + [k]) else None
    case KeyUp(k, m) =>
      if held != [] && held[|held| - 1] == k && Agrees(held, k, m) then Some(held[..|held| - 1]) else None
    case TextInput(_) =>
      if held != [] && !held[|held| - 1].IsModifier() then Some(held) else None
  }

  predicate Agrees(held: seq<SdlKey>, k: SdlKey, m: Mods) {
    if k.IsModifier() then m == NO_MODS
    else m == Mods(LShift in held, LCtrl in held, LAlt in held)
  }

  function Typed(evs: seq<SdlEvent>): seq<int>
    decreases |evs|
  {
    if evs == [] then [] else
    var last := evs[|evs| - 1];
    Typed(evs[..|evs| - 1]) + if last.TextInput? then [last.ch] else []
  }

  function TypedBy(q: seq<KeyEvent>): seq<int>
    decreases |q|
  {
    if q == [] then [] else
    var e := q[|q| - 1];
    TypedBy(q[..|q| - 1]) + TypedText(e.mods, e.unicode)
  }

  datatype Strike = Strike(key: SdlKey, mods: Mods)

  /** The plain keys that went down, with the modifiers reported. */
  function Struck(evs: seq<SdlEvent>): seq<Strike>
    decreases |evs|
  {
    if evs == [] then [] else
    var last := evs[|evs| - 1];
    Struck(evs[..|evs| - 1])
    + if last.KeyDown? && !last.key.IsModifier() then [Strike(last.key, last.mods)] else []
  }

  /** One strike for each queued event whose key the game knows. */
  function StruckBy(q: seq<KeyEvent>): seq<Strike>
    decreases |q|
  {
    if q == [] then [] else
    var e := q[|q| - 1];
    StruckBy(q[..|q| - 1]) + StrikeOf(e)
  }

  function StrikeOf(e: KeyEvent): seq<Strike> {
    if ToSdlKey(e.sym, e.unicode).NoKey? then [] else [Strike(ToSdlKey(e.sym, e.unicode), e.mods)]
  }

  lemma StruckSnoc(out: seq<SdlEvent>, ev: SdlEvent)
    ensures Struck(out + [ev])
         == Struck(out) + if ev.KeyDown? && !ev.key.IsModifier() then [Strike(ev.key, ev.mods)] else []
  {
    assert (out + [ev])[..|out|] == out;
  }

  lemma PushStruck(out: seq<SdlEvent>, key: SdlKey, mods: Mods, down: bool, unicode: int)
    ensures Struck(PushSdlKey(out, key, mods, down, unicode))
         == Struck(out) + if down && !key.IsModifier() then [Strike(key, mods)] else []
  {
    var ev := if down then KeyDown(key, mods) else KeyUp(key, mods);
    StruckSnoc(out, ev);
    StruckSnoc(out + [ev], TextInput(unicode));
  }

  lemma PushIfStruck(c: bool, out: seq<SdlEvent>, key: SdlKey, down: bool)
    requires key.IsModifier()
    ensures Struck(PushIf(c, out, key, down)) == Struck(out)
  {
    if c { PushStruck(out, key, NO_MODS, down, 0); }
  }

  lemma PressedMods(out: seq<SdlEvent>, m: Mods)
    ensures Struck(PressMods(out, m)) == Struck(out)
  {
    var o1 := PushIf(m.shift, out, LShift, true);
    PushIfStruck(m.shift, out, LShift, true);
    PushIfStruck(m.ctrl, o1, LCtrl, true);
    PushIfStruck(m.alt, PushIf(m.ctrl, o1, LCtrl, true), LAlt, true);
  }

  lemma ReleasedMods(out: seq<SdlEvent>, m: Mods)
    ensures Struck(ReleaseMods(out, m)) == Struck(out)
  {
    var o1 := PushIf(m.alt, out, LAlt, false);
    PushIfStruck(m.alt, out, LAlt, false);
    PushIfStruck(m.ctrl, o1, LCtrl, false);
    PushIfStruck(m.shift, PushIf(m.ctrl, o1, LCtrl, false), LShift, false);
  }

  lemma StruckOnce(out: seq<SdlEvent>, key: SdlKey, m: Mods, unicode: int)
    requires !key.IsModifier()
    ensures Struck(StrikeKey(out, key, m, unicode)) == Struck(out) + [Strike(key, m)]
  {
    PushStruck(out, key, m, true, unicode);
    PushStruck(PushSdlKey(out, key, m, true, unicode), key, m, false, unicode);
  }

  /** One queued event strikes its key exactly once, if the game knows it. */
  lemma BurstStrikesOnce(out: seq<SdlEvent>, ev: KeyEvent)
    ensures Struck(FlushOne(out, ev)) == Struck(out) + StrikeOf(ev)
  {
    var key, o1 := ToSdlKey(ev.sym, ev.unicode), PressMods(out, ev.mods);
    if !key.NoKey? {
      PressedMods(out, ev.mods);
      StruckOnce(o1, key, ev.mods, ev.unicode);
      ReleasedMods(StrikeKey(o1, key, ev.mods, ev.unicode), ev.mods);
    }
  }

  /** Which keys a queued event stands for: a printable character for its own key, letters in
      either case for the same one; without one, the browser's key codes. */
  lemma KeysKnown(sym: int, unicode: int)
    ensures 0x20 <= unicode <= 0x7E ==>
      ToSdlKey(sym, unicode) == Ascii(if 65 <= unicode <= 90 then unicode + 32 else unicode)
    ensures !(0x20 <= unicode <= 0x7E) ==>
      && ToSdlKey(8, unicode) == Backspace && ToSdlKey(9, unicode) == Tab && ToSdlKey(13, unicode) == Return
      && ToSdlKey(27, unicode) == Escape && ToSdlKey(32, unicode) == Ascii(32)
      && ToSdlKey(33, unicode) == PageUp && ToSdlKey(34, unicode) == PageDown
      && ToSdlKey(35, unicode) == End && ToSdlKey(36, unicode) == Home
      && ToSdlKey(37, unicode) == Left && ToSdlKey(38, unicode) == UpArrow
      && ToSdlKey(39, unicode) == Right && ToSdlKey(40, unicode) == DownArrow
      && ToSdlKey(45, unicode) == Insert && ToSdlKey(46, unicode) == Delete
    ensures !(0x20 <= unicode <= 0x7E) && 112 <= sym <= 123 ==> ToSdlKey(sym, unicode) == Fn(sym - 111)
    ensures !(0x20 <= unicode <= 0x7E) && (47 <= sym <= 111 || 124 <= sym <= 126 || 41 <= sym <= 44) ==>
      ToSdlKey(sym, unicode) == Ascii(if 65 <= sym <= 90 then sym + 32 else sym)
    ensures !(0x20 <= unicode <= 0x7E) && (sym < 8 || 9 < sym < 13 || 13 < sym < 27 || 27 < sym < 32 || sym > 126) ==>
      ToSdlKey(sym, unicode).NoKey?
  {
  }

  /** The symbols key codes are given, for every code a byte can hold. */
  lemma CodesKnown(code: Byte)
    ensures 96 <= code <= 105 ==> MapInputCode(code) == 256 + code - 96
    ensures 112 <= code <= 123 ==> MapInputCode(code) == 282 + code - 112
    ensures MapInputCode(111) == 267 && MapInputCode(106) == 268 && MapInputCode(109) == 269 && MapInputCode(107) == 270
    ensures MapInputCode(38) == 273 && MapInputCode(40) == 274 && MapInputCode(39) == 275 && MapInputCode(37) == 276
    ensures MapInputCode(36) == 278 && MapInputCode(35) == 279 && MapInputCode(33) == 280 && MapInputCode(34) == 281
    ensures MapInputCode(144) == 294 && MapInputCode(46) == 127 && MapInputCode(188) == 60 && MapInputCode(190) == 62
    ensures 1 <= code <= 32 || 41 <= code <= 45 || 47 <= code <= 95 ==> MapInputCode(code) == code
    ensures code == 108 || code == 110 || 124 <= code <= 143 || 145 <= code <= 177 ==> MapInputCode(code) == code
    ensures MapInputCode(code) == K_UNKNOWN <==> code == 0 || (code > 177 && code != 188 && code != 190)
  {
  }

  lemma ReplaySnoc(out: seq<SdlEvent>, ev: SdlEvent)
    ensures Replay([], out + [ev]) == (var r := Replay([], out); if r.None? then None else Press(r.value, ev))
    ensures Typed(out + [ev]) == Typed(out) + if ev.TextInput? then [ev.ch] else []
  {
    assert (out + [ev])[..|out|] == out;
  }

  /** One push from a known held stack. */
  lemma PushKeeps(out: seq<SdlEvent>, held: seq<SdlKey>, key: SdlKey, mods: Mods, down: bool, unicode: int)
    requires Replay([], out) == Some(held) && Agrees(held, key, mods) && (key.IsModifier() ==> unicode == 0)
    requires if down then key !in held else held != [] && held[|held| - 1] == key
    ensures Replay([], PushSdlKey(out, key, mods, down, unicode))
         == Some(if down then held + [key] else held[..|held| - 1])
    ensures Typed(PushSdlKey(out, key, mods, down, unicode))
         == Typed(out) + if down then TypedText(mods, unicode) else []
  {
    var ev := if down then KeyDown(key, mods) else KeyUp(key, mods);
    ReplaySnoc(out, ev);
    ReplaySnoc(out + [ev], TextInput(unicode));
  }

  function Hold(held: seq<SdlKey>, c: bool, key: SdlKey): seq<SdlKey> {
    if c then held + [key] else held
  }

  lemma PressIf(c: bool, out: seq<SdlEvent>, held: seq<SdlKey>, key: SdlKey)
    requires Replay([], out) == Some(held) && key.IsModifier() && key !in held
    ensures Replay([], PushIf(c, out, key, true)) == Some(Hold(held, c, key))
    ensures Typed(PushIf(c, out, key, true)) == Typed(out)
  {
    if c { PushKeeps(out, held, key, NO_MODS, true, 0); }
  }

  lemma ReleaseIf(c: bool, out: seq<SdlEvent>, held: seq<SdlKey>, key: SdlKey)
    requires Replay([], out) == Some(Hold(held, c, key)) && key.IsModifier()
    ensures Replay([], PushIf(c, out, key, false)) == Some(held)
    ensures Typed(PushIf(c, out, key, false)) == Typed(out)
  {
    if c {
      PushKeeps(out, held + [key], key, NO_MODS, false, 0);
      assert (held + [key])[..|held|] == held;
    }
  }

  function HeldMods(m: Mods): seq<SdlKey> {
    Hold(Hold(Hold([], m.shift, LShift), m.ctrl, LCtrl), m.alt, LAlt)
  }

  lemma PressModsHolds(out: seq<SdlEvent>, m: Mods)
    requires Replay([], out) == Some([])
    ensures Replay([], PressMods(out, m)) == Some(HeldMods(m)) && Typed(PressMods(out, m)) == Typed(out)
  {
    var h1 := Hold([], m.shift, LShift);
    var o1 := PushIf(m.shift, out, LShift, true);
    PressIf(m.shift, out, [], LShift);
    PressIf(m.ctrl, o1, h1, LCtrl);
    PressIf(m.alt, PushIf(m.ctrl, o1, LCtrl, true), Hold(h1, m.ctrl, LCtrl), LAlt);
  }

  lemma ReleaseModsFrees(out: seq<SdlEvent>, m: Mods)
    requires Replay([], out) == Some(HeldMods(m))
    ensures Replay([], ReleaseMods(out, m)) == Some([]) && Typed(ReleaseMods(out, m)) == Typed(out)
  {
    var h1 := Hold([], m.shift, LShift);
    var o1 := PushIf(m.alt, out, LAlt, false);
    ReleaseIf(m.alt, out, Hold(h1, m.ctrl, LCtrl), LAlt);
    ReleaseIf(m.ctrl, o1, h1, LCtrl);
    ReleaseIf(m.shift, PushIf(m.ctrl, o1, LCtrl, false), [], LShift);
  }

  function TypedText(m: Mods, unicode: int): seq<int> {
    if Printable(unicode) && !m.ctrl && !m.alt then [unicode] else []
  }

  lemma HeldModsAgree(m: Mods, key: SdlKey)
    requires !key.IsModifier()
    ensures key !in HeldMods(m) && Agrees(HeldMods(m), key, m) && Agrees(HeldMods(m) + [key], key, m)
  {
  }

  lemma StrikeIsBracketed(out: seq<SdlEvent>, held: seq<SdlKey>, key: SdlKey, m: Mods, unicode: int)
    requires Replay([], out) == Some(held) && !key.IsModifier()
    requires key !in held && Agrees(held, key, m) && Agrees(held + [key], key, m)
    ensures Replay([], StrikeKey(out, key, m, unicode)) == Some(held)
    ensures Typed(StrikeKey(out, key, m, unicode)) == Typed(out) + TypedText(m, unicode)
  {
    PushKeeps(out, held, key, m, true, unicode);
    PushKeeps(PushSdlKey(out, key, m, true, unicode), held + [key], key, m, false, unicode);
    assert (held + [key])[..|held|] == held;
  }

  lemma BurstIsBracketed(out: seq<SdlEvent>, ev: KeyEvent)
    requires Replay([], out) == Some([])
    ensures Replay([], FlushOne(out, ev)) == Some([])
    ensures Typed(FlushOne(out, ev)) == Typed(out) + TypedText(ev.mods, ev.unicode)
  {
    var key := ToSdlKey(ev.sym, ev.unicode);
    if !key.NoKey? {
      var o1 := PressMods(out, ev.mods);
      PressModsHolds(out, ev.mods);
      HeldModsAgree(ev.mods, key);
      StrikeIsBracketed(o1, HeldMods(ev.mods), key, ev.mods, ev.unicode);
      ReleaseModsFrees(StrikeKey(o1, key, ev.mods, ev.unicode), ev.mods);
    }
  }
}
