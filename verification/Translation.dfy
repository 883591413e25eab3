/** Router events, plugin events and the translation between them (src/event_route.cpp:33-158). */
module Translation {
  import opened Config

  datatype NoteKind = On | Off | Choke

  /** The payload of a router event. Fields that play no part in a decision are kept as given. */
  datatype Body =
    | Note(kind: NoteKind, noteId: int, port: int, channel: int, key: int, velocity: real)
    | Expression(expressionId: int, noteId: int, port: int, channel: int, key: int, value: real)
    | Param(paramId: nat, noteId: int, value: real)
    | ParamMod(paramId: nat, noteId: int, value: real)
    | Midi1(umpPort: nat, word: Word)
    | Midi2(umpPort: nat, words: (Word, Word, Word, Word))
    | Unknown

  datatype MrEvent = MrEvent(sampleTime: nat, trackId: nat, destSlot: int, live: bool, body: Body)

  datatype Dialect = NoDialect | Clap | OldMidi | NewMidi

  datatype ClapBody =
    | ClapNote(kind: NoteKind, noteId: int, port: int, channel: int, key: int, velocity: real)
    | ClapExpression(expressionId: int, noteId: int, port: int, channel: int, key: int, value: real)
    | ClapParam(paramId: nat, noteId: int, value: real)
    | ClapParamMod(paramId: nat, noteId: int, amount: real)
    | ClapMidi(midiPort: nat, bytes: (Byte, Byte, Byte))
    | ClapMidi2(midiPort: nat, words: (Word, Word, Word, Word))

  datatype ClapEvent = ClapEvent(time: nat, live: bool, body: ClapBody)

  /** The expression id of tuning, in semitones. */
  const MR_EXPR_TUNING := 3

  // ---------------------------------------------------------------- pitch bend arithmetic

  /** Conversion to an integer drops the fraction, towards zero. */
  function Trunc(x: real): int {
    if x >= 0.0 then x.Floor else -((-x).Floor)
  }

  /** Two semitones are full scale. */
  function Norm(value: real): (n: real)
    ensures -1.0 <= n <= 1.0
  {
    var n := value / 2.0;
    if n > 1.0 then 1.0 else if n < -1.0 then -1.0 else n
  }

  /** The 14-bit bend of MIDI 1.0. */
  function Bend14(value: real): int {
    var bend := 8192 + Trunc(Norm(value) * 8191.0);
    if bend < 0 then 0 else if bend > 16383 then 16383 else bend
  }

  /** The 32-bit bend of a MIDI 2.0 per-note pitch bend. */
  function Bend32(value: real): int {
    Trunc(0x8000_0000 as real + Norm(value) * 0x7FFF_FFFF as real)
  }

  function Masked(x: int, limit: int): (m: int)
    requires limit > 0
    ensures 0 <= m < limit
  {
    if x < 0 then 0 else x % limit
  }

  /** First word of a per-note pitch bend message: type 4, status 6, channel and key. */
  function BendWord(channel: nat, key: nat): Word
    requires channel < 16 && key < 128
  {
    0x4000_0000 + 0x60_0000 + channel * 0x1_0000 + key * 0x100
  }

  function PortOf(port: int): nat {
    if port < 0 then 0 else port % 0x1_0000
  }

  function BendMidi1(port: int, channel: int, value: real): (m: ClapBody)
    ensures m.ClapMidi?
  {
    var bend := Bend14(value);
    Bend14Range(value);
    ClapMidi(PortOf(port), (0xE0 + Masked(channel, 16), bend % 128, bend / 128 % 128))
  }

  function BendMidi2(port: int, channel: int, key: int, value: real): ClapBody {
    Bend32Range(value);
    ClapMidi2(PortOf(port), (BendWord(Masked(channel, 16), Masked(key, 128)), Bend32(value), 0, 0))
  }

  /** The plugin event for a router event, or None when the target's dialect cannot express it. */
  function Translate(ev: MrEvent, dialect: Dialect, time: nat): Option<ClapEvent> {
    var body := match ev.body
      case Note(k, id, p, c, key, v) => Some(ClapNote(k, id, p, c, key, v))
      case Expression(e, id, p, c, key, v) =>
        if dialect.NoDialect? || dialect.Clap? then Some(ClapExpression(e, id, p, c, key, v))
        else if e != MR_EXPR_TUNING then None
        else if dialect.NewMidi? then Some(BendMidi2(p, c, key, v))
        else Some(BendMidi1(p, c, v))
      case Param(id, n, v) => Some(ClapParam(id, n, v))
      case ParamMod(id, n, v) => Some(ClapParamMod(id, n, v))
      case Midi1(p, w) => Some(ClapMidi(p, (w % 0x100, w / 0x100 % 0x100, w / 0x1_0000 % 0x100)))
      case Midi2(p, w) => Some(ClapMidi2(p, w))
      case Unknown => None;
    if body.None? then None else Some(ClapEvent(time, ev.live, body.value))
  }

  // ---------------------------------------------------------------- what is lost

  predicate SpeaksClap(d: Dialect) {
    d.NoDialect? || d.Clap?
  }

  /** An event is untranslatable exactly when its kind is unknown, or when it is an expression other
      than tuning for a plugin that speaks MIDI; a translated one keeps its live flag. */
  lemma UntranslatableExactly(ev: MrEvent, d: Dialect, time: nat)
    ensures Translate(ev, d, time).None? <==>
      ev.body.Unknown? || (ev.body.Expression? && !SpeaksClap(d) && ev.body.expressionId != MR_EXPR_TUNING)
    ensures Translate(ev, d, time).Some? ==>
      Translate(ev, d, time).value.time == time && Translate(ev, d, time).value.live == ev.live
  {
    hide BendMidi1, BendMidi2;
  }

  /** The router event a plugin event says. */
  function Said(b: ClapBody): Body {
    match b
    case ClapNote(k, id, p, c, key, v) => Note(k, id, p, c, key, v)
    case ClapExpression(e, id, p, c, key, v) => Expression(e, id, p, c, key, v)
    case ClapParam(id, n, v) => Param(id, n, v)
    case ClapParamMod(id, n, v) => ParamMod(id, n, v)
    case ClapMidi(_, _) => Unknown
    case ClapMidi2(p, w) => Midi2(p, w)
  }

  /** But for MIDI 1.0 words, of which three bytes are kept, nothing is lost: every event but an
      expression is the same for all plugins, and so is an expression for those whose dialect is the
      router's own. */
  lemma TranslationIsLossless(ev: MrEvent, d: Dialect, time: nat)
    requires !ev.body.Unknown? && !ev.body.Midi1? && (ev.body.Expression? ==> SpeaksClap(d))
    ensures Translate(ev, d, time).Some? && Said(Translate(ev, d, time).value.body) == ev.body
  {
    hide BendMidi1, BendMidi2;
  }

  /** Of a MIDI 1.0 word the low 24 bits are kept, lowest byte first, and the port. */
  lemma Midi1WordKept(ev: MrEvent, d: Dialect, time: nat)
    requires ev.body.Midi1?
    ensures var t := Translate(ev, d, time);
      && t.Some? && t.value.body.ClapMidi? && t.value.body.midiPort == ev.body.umpPort
      && var b := t.value.body.bytes; b.0 + 0x100 * b.1 + 0x1_0000 * b.2 == ev.body.word % 0x100_0000
  {
    hide BendMidi1, BendMidi2;
    var w := ev.body.word;
    assert w / 0x1_0000 == w / 0x100 / 0x100;
    assert w % 0x100_0000 == w - 0x100_0000 * (w / 0x100_0000) && w / 0x100_0000 == w / 0x1_0000 / 0x100;
  }

  // ---------------------------------------------------------------- facts

  lemma TruncMonotone(x: real, y: real)
    requires x <= y
    ensures Trunc(x) <= Trunc(y)
  {
  }

  lemma NormMonotone(v: real, w: real)
    requires v <= w
    ensures Norm(v) <= Norm(w)
  {
  }

  /** The bend is never 0, although the code clamps to it: it lies between 1 and 16383. */
  lemma Bend14Range(value: real)
    ensures 1 <= Bend14(value) <= 16383
    ensures Bend14(value) == 8192 + Trunc(Norm(value) * 8191.0)
  {
    TruncMonotone(Norm(value) * 8191.0, 8191.0);
    TruncMonotone(-8191.0, Norm(value) * 8191.0);
    assert Trunc(8191.0) == 8191 && Trunc(-8191.0) == -8191;
  }

  lemma Bend14Monotone(v: real, w: real)
    requires v <= w
    ensures Bend14(v) <= Bend14(w)
  {
    Bend14Range(v);
    Bend14Range(w);
    NormMonotone(v, w);
    TruncMonotone(Norm(v) * 8191.0, Norm(w) * 8191.0);
  }

  lemma TruncOdd(x: real)
    ensures Trunc(-x) == -Trunc(x)
  {
    if x == 0.0 { assert Trunc(x) == 0; }
  }

  /** Bending down is the mirror image of bending up, about 8192. */
  lemma Bend14Odd(value: real)
    ensures Bend14(-value) - 8192 == -(Bend14(value) - 8192)
  {
    Bend14Range(value);
    Bend14Range(-value);
    assert Norm(-value) == -Norm(value);
    assert Norm(-value) * 8191.0 == -(Norm(value) * 8191.0);
    TruncOdd(Norm(value) * 8191.0);
  }

  /** A receiver that recombines the two 7-bit bytes gets the bend back; both bytes have their top
      bit clear, and the status byte is a channel pitch bend on the event's channel. */
  lemma Bend14Recovered(port: int, channel: int, value: real)
    ensures var d := BendMidi1(port, channel, value).bytes;
      && d.1 + 128 * d.2 == Bend14(value)
      && d.1 < 128 && d.2 < 128
      && d.0 / 16 == 0xE && d.0 % 16 == Masked(channel, 16)
  {
    var bend := Bend14(value);
    Bend14Range(value);
    assert bend == bend % 128 + 128 * (bend / 128) && bend / 128 < 128;
    hide Bend14, Masked;
  }

  /** The code's bitwise operators and the arithmetic used here agree: masks and shifts are remainders
      and quotients, and disjoint fields add up. */
  lemma StatusByte(c: bv8)
    requires c < 16
    ensures 0xE0 | c == 0xE0 + c
  {
  }

  lemma FieldsAddUp(c: bv32, k: bv32)
    requires c < 16 && k < 128
    ensures (0x4 << 28) | (0x6 << 20) | (c << 16) | (k << 8) == 0x4000_0000 + 0x60_0000 + c * 0x1_0000 + k * 0x100
  {
  }

  lemma MasksAreRemainders(w: bv32)
    ensures w & 0xFF == w % 0x100 && w & 0x7F == w % 0x80 && w & 0x0F == w % 0x10
    ensures w >> 7 == w / 0x80 && w >> 8 == w / 0x100 && w >> 16 == w / 0x1_0000
  {
  }

  lemma Bend32Range(value: real)
    ensures 1 <= Bend32(value) <= 0xFFFF_FFFF
  {
    var x := 0x8000_0000 as real + Norm(value) * 0x7FFF_FFFF as real;
    assert 1.0 <= x <= 0xFFFF_FFFF as real;
    TruncMonotone(1.0, x);
    TruncMonotone(x, 0xFFFF_FFFF as real);
    assert Trunc(1.0) == 1 && Trunc(0xFFFF_FFFF as real) == 0xFFFF_FFFF;
  }

  lemma Bend32Monotone(v: real, w: real)
    requires v <= w
    ensures Bend32(v) <= Bend32(w)
  {
    NormMonotone(v, w);
    TruncMonotone(0x8000_0000 as real + Norm(v) * 0x7FFF_FFFF as real,
                  0x8000_0000 as real + Norm(w) * 0x7FFF_FFFF as real);
  }

  /** The 32-bit bend is the mirror image about 2^31 exactly when the scaled bend has no fraction:
      the conversion drops fractions of the sum, which for a downward bend lowers it by one. */
  lemma Bend32Mirror(value: real)
    ensures var x := Norm(value) * 0x7FFF_FFFF as real;
      Bend32(value) + Bend32(-value) == if x == x.Floor as real then TWO_32 else TWO_32 - 1
  {
    var x := Norm(value) * 0x7FFF_FFFF as real;
    assert Norm(-value) == -Norm(value);
    assert Norm(-value) * 0x7FFF_FFFF as real == -x;
    Bend32Floor(value);
    Bend32Floor(-value);
    FloorMirror(x);
  }

  /** One semitone up and one down are not mirror images. */
  lemma Bend32Lopsided()
    ensures Bend32(1.0) + Bend32(-1.0) == TWO_32 - 1
  {
    Bend32Mirror(1.0);
    assert Norm(1.0) == 0.5;
    assert (Norm(1.0) * 0x7FFF_FFFF as real).Floor == 0x3FFF_FFFF;
  }

  lemma Bend32Floor(value: real)
    ensures Bend32(value) == 0x8000_0000 + (Norm(value) * 0x7FFF_FFFF as real).Floor
  {
    var x := Norm(value) * 0x7FFF_FFFF as real;
    Bend32Range(value);
    assert (0x8000_0000 as real + x).Floor == 0x8000_0000 + x.Floor;
  }

  lemma FloorMirror(x: real)
    ensures x.Floor + (-x).Floor == if x == x.Floor as real then 0 else -1
  {
  }

  /** Decoding the first word gives back message type 4, status 6, the channel and the key. */
  lemma BendWordDecodes(channel: nat, key: nat)
    requires channel < 16 && key < 128
    ensures var w := BendWord(channel, key);
      && w / 0x1000_0000 == 4 && w / 0x10_0000 % 0x10 == 6
      && w / 0x1_0000 % 0x10 == channel && w / 0x100 % 0x80 == key && w % 0x100 == 0
  {
    var w := BendWord(channel, key);
    assert w / 0x100 == 0x40_0000 + 0x6000 + channel * 0x100 + key;
    assert w / 0x1_0000 == 0x4000 + 0x60 + channel;
    assert w / 0x10_0000 == 0x406;
  }

  // ---------------------------------------------------------------- which bend a plugin gets

  /** The event is a tuning expression. */
  predicate IsTuning(ev: MrEvent) {
    ev.body.Expression? && ev.body.expressionId == MR_EXPR_TUNING
  }

  /** A plugin that speaks MIDI 2.0 gets a per-note pitch bend for the event's channel and key: centred
      without tuning, and at its ends two semitones away and beyond. */
  lemma TuningForMidi2(ev: MrEvent, time: nat)
    requires IsTuning(ev)
    ensures var t := Translate(ev, NewMidi, time); t.Some? && t.value.body.ClapMidi2?
    ensures var m := Translate(ev, NewMidi, time).value.body; var w := m.words;
      && w.0 / 0x1000_0000 == 4 && w.0 / 0x10_0000 % 0x10 == 6
      && w.0 / 0x1_0000 % 0x10 == (if ev.body.channel < 0 then 0 else ev.body.channel % 16)
      && w.0 / 0x100 % 0x80 == (if ev.body.key < 0 then 0 else ev.body.key % 128)
      && w.0 % 0x100 == 0 && w.2 == w.3 == 0
      && m.midiPort == (if ev.body.port < 0 then 0 else ev.body.port % 0x1_0000)
    ensures var w := Translate(ev, NewMidi, time).value.body.words;
      && (ev.body.value == 0.0 ==> w.1 == 0x8000_0000)
      && (ev.body.value <= -2.0 ==> w.1 == 1) && (ev.body.value >= 2.0 ==> w.1 == 0xFFFF_FFFF)
  {
    BendWordDecodes(Masked(ev.body.channel, 16), Masked(ev.body.key, 128));
    Bend32Points(ev.body.value);
    hide BendWord, Bend32;
  }

  lemma Bend32Points(v: real)
    ensures v == 0.0 ==> Bend32(v) == 0x8000_0000
    ensures v <= -2.0 ==> Bend32(v) == 1
    ensures v >= 2.0 ==> Bend32(v) == 0xFFFF_FFFF
  {
    Bend32Floor(v);
  }

  /** Any other MIDI plugin gets the three bytes of a channel pitch bend on the event's channel, whose
      two data bytes recombine to a bend with the same centre and ends in 14 bits. */
  lemma TuningForMidi1(ev: MrEvent, time: nat)
    requires IsTuning(ev)
    ensures var t := Translate(ev, OldMidi, time); t.Some? && t.value.body.ClapMidi?
    ensures var m := Translate(ev, OldMidi, time).value.body; var d := m.bytes;
      && d.0 / 16 == 0xE && d.0 % 16 == (if ev.body.channel < 0 then 0 else ev.body.channel % 16)
      && d.1 < 128 && d.2 < 128
      && m.midiPort == (if ev.body.port < 0 then 0 else ev.body.port % 0x1_0000)
    ensures var d := Translate(ev, OldMidi, time).value.body.bytes; var bend := d.1 + 128 * d.2;
      && (ev.body.value == 0.0 ==> bend == 8192)
      && (ev.body.value <= -2.0 ==> bend == 1) && (ev.body.value >= 2.0 ==> bend == 16383)
  {
    Bend14Recovered(ev.body.port, ev.body.channel, ev.body.value);
    Bend14Points(ev.body.value);
    hide Bend14;
  }

  lemma Bend14Points(v: real)
    ensures v == 0.0 ==> Bend14(v) == 8192
    ensures v <= -2.0 ==> Bend14(v) == 1
    ensures v >= 2.0 ==> Bend14(v) == 16383
  {
    Bend14Range(v);
    if v <= -2.0 { assert Norm(v) == -1.0; }
    if v >= 2.0 { assert Norm(v) == 1.0; }
  }

  /** Within two semitones the bend is proportional to the tuning, to less than one step. */
  lemma TuningIsLinear(ev: MrEvent, time: nat)
    requires IsTuning(ev) && -2.0 <= ev.body.value <= 2.0
    ensures var t := Translate(ev, NewMidi, time);
      && t.Some? && t.value.body.ClapMidi2?
      && var exact := 0x8000_0000 as real + ev.body.value / 2.0 * 0x7FFF_FFFF as real;
      exact - 1.0 < t.value.body.words.1 as real <= exact
    ensures var t := Translate(ev, OldMidi, time);
      && t.Some? && t.value.body.ClapMidi?
      && var exact := 8192.0 + ev.body.value / 2.0 * 8191.0;
      exact - 1.0 < (t.value.body.bytes.1 + 128 * t.value.body.bytes.2) as real < exact + 1.0
  {
    Bend32Floor(ev.body.value);
    Bend14Range(ev.body.value);
    Bend14Recovered(ev.body.port, ev.body.channel, ev.body.value);
    TruncNear(Norm(ev.body.value) * 8191.0);
    hide Bend14, Bend32, BendWord, Masked, Trunc;
  }

  lemma TruncNear(x: real)
    ensures x - 1.0 < Trunc(x) as real < x + 1.0
  {
  }

  /** More tuning never bends less, in either dialect. */
  lemma TuningIsMonotone(e: MrEvent, f: MrEvent, time: nat)
    requires IsTuning(e) && IsTuning(f) && e.body.value <= f.body.value
    ensures var a, b := Translate(e, NewMidi, time), Translate(f, NewMidi, time);
      a.Some? && b.Some? && a.value.body.ClapMidi2? && b.value.body.ClapMidi2?
      && a.value.body.words.1 <= b.value.body.words.1
    ensures var a, b := Translate(e, OldMidi, time), Translate(f, OldMidi, time);
      a.Some? && b.Some? && a.value.body.ClapMidi? && b.value.body.ClapMidi?
      && a.value.body.bytes.1 + 128 * a.value.body.bytes.2 <= b.value.body.bytes.1 + 128 * b.value.body.bytes.2
  {
    Bend32Monotone(e.body.value, f.body.value);
    Bend14Monotone(e.body.value, f.body.value);
    Bend14Recovered(e.body.port, e.body.channel, e.body.value);
    Bend14Recovered(f.body.port, f.body.channel, f.body.value);
    hide Bend14, Bend32, BendWord, Masked;
  }
}
