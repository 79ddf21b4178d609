/**
 * `Win32.ShortMsg`: packing and unpacking of channel-voice messages in the
 * 32-bit word exchanged with `midiOutShortMsg` / `MIM_DATA`. Byte 0 holds
 * status | channel, byte 1 the first data byte, byte 2 the second. Status
 * nibbles follow the Channel Voice Messages section of the MIDI 1.0 Detailed
 * Specification (note-off 0x8n, note-on 0x9n, control change 0xBn, program
 * change 0xCn, pitch bend 0xEn) and the real-time codes its System Real Time
 * Messages section (0xF8 .. 0xFF).
 *
 * `dwParam1` and `dwParam2` are modelled by their low 32 bits (the code casts
 * both to 32-bit integers before use). Integer arguments are checked in `int`
 * and converted to bytes only once they are known to be in range.
 */
/** Conversions between bytes and integers. */
module Bytes {
  /** A byte value converts to `bv8` and back unchanged. */
  lemma ByteToInt(x: int)
    requires 0 <= x < 256
    ensures (x as bv8) as int == x
  {
    assert x % 256 == x;
    var b := x as bv8;
    assert b as int == x;
  }

  /** A `bv8` converts to an integer and back unchanged. */
  lemma Bv8ToInt(b: bv8)
    ensures (b as int) as bv8 == b
  {
  }
}

module ShortMsg {
  import opened Bytes
  import opened Common
  import opened Midi
  import opened Messages

  type Word = bv32

  /** The low-order byte of a small non-negative integer, placed in bits 0..7 of a word. */
  function Byte(x: int): Word
    requires 0 <= x < 256
  {
    (x as bv8) as Word
  }

  /** Bits 0..7 of a word read back as an integer. */
  function Low8(w: Word): (r: int)
    ensures 0 <= r < 256
  {
    ((w & 0xFF) as bv8) as int
  }

  lemma ByteWidens(b: bv8)
    ensures ((b as Word) & 0xFF) as bv8 == b
  {
  }

  lemma Low8OfByte(x: int)
    requires 0 <= x < 256
    ensures Low8(Byte(x)) == x
  {
    ByteToInt(x);
    ByteWidens(x as bv8);
  }

  lemma NarrowWiden(w: Word)
    requires w < 256
    ensures ((w & 0xFF) as bv8) as Word == w
  {
  }

  lemma ByteOfLow8(w: Word)
    requires w < 256
    ensures Byte(Low8(w)) == w
  {
    Bv8ToInt((w & 0xFF) as bv8);
    NarrowWiden(w);
  }

  lemma Low8Below128(w: Word)
    requires w < 128
    ensures Low8(w) < 128
  {
    var b := (w & 0xFF) as bv8;
    assert b < 128;
  }

  lemma SmallByte(x: int)
    requires 0 <= x < 64
    ensures Byte(x) < 64
  {
    ByteToInt(x);
    var b := x as bv8;
    assert b < 64;
  }

  lemma ByteBelow128(x: int)
    requires 0 <= x < 128
    ensures Byte(x) < 128
  {
    ByteToInt(x);
    var b := x as bv8;
    assert b < 128;
  }

  lemma ByteBelow16(x: int)
    requires 0 <= x < 16
    ensures Byte(x) < 16
  {
    ByteToInt(x);
    var b := x as bv8;
    assert b < 16;
  }

  // ---------------------------------------------------------------- predicates

  predicate IsNoteOn(p1: Word) { p1 & 0xF0 == 0x90 }
  predicate IsNoteOff(p1: Word) { p1 & 0xF0 == 0x80 }
  predicate IsControlChange(p1: Word) { p1 & 0xF0 == 0xB0 }
  predicate IsProgramChange(p1: Word) { p1 & 0xF0 == 0xC0 }
  predicate IsPitchBend(p1: Word) { p1 & 0xF0 == 0xE0 }
  predicate IsRealTime(p1: Word) { p1 & 0xF8 == 0xF8 }

  /** No word is recognised as two different kinds of message. */
  lemma KindsAreExclusive(p1: Word)
    ensures IsNoteOn(p1) ==> !IsNoteOff(p1) && !IsControlChange(p1) && !IsProgramChange(p1) && !IsPitchBend(p1) && !IsRealTime(p1)
    ensures IsNoteOff(p1) ==> !IsControlChange(p1) && !IsProgramChange(p1) && !IsPitchBend(p1) && !IsRealTime(p1)
    ensures IsControlChange(p1) ==> !IsProgramChange(p1) && !IsPitchBend(p1) && !IsRealTime(p1)
    ensures IsProgramChange(p1) ==> !IsPitchBend(p1) && !IsRealTime(p1)
    ensures IsPitchBend(p1) ==> !IsRealTime(p1)
  {
  }

  // ---------------------------------------------------------------- decoded forms

  /** The out-parameters of `DecodeNoteOn` / `DecodeNoteOff`. */
  datatype NoteFields = NoteFields(channel: int, noteId: int, velocity: int, timestamp: Word)

  /** The out-parameters of `DecodeControlChange`. */
  datatype ControlFields = ControlFields(channel: int, control: int, value: int, timestamp: Word)

  /** The out-parameters of `DecodeProgramChange`. */
  datatype ProgramFields = ProgramFields(channel: int, instrument: int, timestamp: Word)

  /** The out-parameters of `DecodePitchBend`. */
  datatype PitchBendFields = PitchBendFields(channel: int, value: int, timestamp: Word)

  /** The out-parameters of `DecodeRealTime`. */
  datatype RealTimeFields = RealTimeFields(msgType: RealTimeMessageType, timestamp: Word)

  /** `(int)dwParam1 & 0x0f`. */
  function ChannelOf(p1: Word): (r: int)
    ensures ChannelIsValid(r)
  {
    Low8(p1 & 0x0F)
  }

  /** `((int)dwParam1 & 0xff00) >> 8`. */
  function Data1(p1: Word): int {
    Low8((p1 & 0xFF00) >> 8)
  }

  /** `((int)dwParam1 & 0xff0000) >> 16`. */
  function Data2(p1: Word): int {
    Low8((p1 & 0xFF0000) >> 16)
  }

  // ---------------------------------------------------------------- note on / off

  function DecodeNoteOn(p1: Word, p2: Word): (r: Result<NoteFields>)
    ensures r.Success? <==> IsNoteOn(p1)
    ensures r.Failure? ==> r.error.Argument?
    ensures r.Success? ==> ChannelIsValid(r.value.channel) && 0 <= r.value.noteId < 256 &&
                           0 <= r.value.velocity < 256 && r.value.timestamp == p2
  {
    if !IsNoteOn(p1) then Failure(Argument("Not a Note On message."))
    else Success(NoteFields(ChannelOf(p1), Data1(p1), Data2(p1), p2))
  }

  /** The word of a channel-voice message: status | channel, then the two data bytes. */
  function Pack(status: Word, channel: Word, data1: Word, data2: Word): Word {
    status | channel | (data1 << 8) | (data2 << 16)
  }

  function EncodeNoteOn(channel: int, noteId: int, velocity: int): (r: Result<Word>)
    ensures r.Success? <==> ChannelIsValid(channel) && IsInMidiRange(noteId) && VelocityIsValid(velocity)
    ensures r.Failure? ==> r.error.ArgumentOutOfRange?
    ensures r.Success? ==> IsNoteOn(r.value) && r.value < 0x80_0000
  {
    if !ChannelIsValid(channel) then Failure(ArgumentOutOfRange("Channel out of range"))
    else if !IsInMidiRange(noteId) then Failure(ArgumentOutOfRange("Pitch out of MIDI range."))
    else if velocity < 0 || velocity > 127 then Failure(ArgumentOutOfRange("Velocity is out of range."))
    else Success(Pack(0x90, Byte(channel), Byte(noteId), Byte(velocity)))
  }

  function DecodeNoteOff(p1: Word, p2: Word): (r: Result<NoteFields>)
    ensures r.Success? <==> IsNoteOff(p1)
    ensures r.Failure? ==> r.error.Argument?
    ensures r.Success? ==> ChannelIsValid(r.value.channel) && 0 <= r.value.noteId < 256 &&
                           0 <= r.value.velocity < 256 && r.value.timestamp == p2
  {
    if !IsNoteOff(p1) then Failure(Argument("Not a Note Off message."))
    else Success(NoteFields(ChannelOf(p1), Data1(p1), Data2(p1), p2))
  }

  function EncodeNoteOff(channel: int, noteId: int, velocity: int): (r: Result<Word>)
    ensures r.Success? <==> ChannelIsValid(channel) && IsInMidiRange(noteId) && VelocityIsValid(velocity)
    ensures r.Failure? ==> r.error.ArgumentOutOfRange?
    ensures r.Success? ==> IsNoteOff(r.value) && r.value < 0x80_0000
  {
    if !ChannelIsValid(channel) then Failure(ArgumentOutOfRange("Channel out of range"))
    else if !IsInMidiRange(noteId) then Failure(ArgumentOutOfRange("Pitch out of MIDI range."))
    else if velocity < 0 || velocity > 127 then Failure(ArgumentOutOfRange("Velocity is out of range."))
    else Success(Pack(0x80, Byte(channel), Byte(noteId), Byte(velocity)))
  }

  /** The three fields of a packed word sit in their own bytes. */
  lemma PackFields(status: Word, c: Word, d1: Word, d2: Word)
    requires status & 0x0F == 0 && status < 256 && c < 16 && d1 < 128 && d2 < 128
    ensures Pack(status, c, d1, d2) & 0x0F == c
    ensures Pack(status, c, d1, d2) & 0xF0 == status & 0xF0
    ensures (Pack(status, c, d1, d2) & 0xFF00) >> 8 == d1
    ensures (Pack(status, c, d1, d2) & 0xFF0000) >> 16 == d2
    ensures Pack(status, c, d1, d2) < 0x80_0000
  {
  }

  lemma UnpackPack(status: Word, channel: int, data1: int, data2: int)
    requires status & 0x0F == 0 && status < 256
    requires ChannelIsValid(channel) && 0 <= data1 < 128 && 0 <= data2 < 128
    ensures ChannelOf(Pack(status, Byte(channel), Byte(data1), Byte(data2))) == channel
    ensures Data1(Pack(status, Byte(channel), Byte(data1), Byte(data2))) == data1
    ensures Data2(Pack(status, Byte(channel), Byte(data1), Byte(data2))) == data2
    ensures Pack(status, Byte(channel), Byte(data1), Byte(data2)) & 0xF0 == status & 0xF0
    ensures Pack(status, Byte(channel), Byte(data1), Byte(data2)) < 0x80_0000
  {
    ByteBelow16(channel);
    ByteBelow128(data1);
    ByteBelow128(data2);
    PackFields(status, Byte(channel), Byte(data1), Byte(data2));
    Low8OfByte(channel);
    Low8OfByte(data1);
    Low8OfByte(data2);
  }

  /** A word with nothing above byte 2 is the packing of its four fields. */
  lemma SplitBytes(p1: Word)
    requires p1 < 0x100_0000
    ensures Pack(p1 & 0xF0, p1 & 0x0F, (p1 & 0xFF00) >> 8, (p1 & 0xFF0000) >> 16) == p1
    ensures (p1 & 0xFF0000) >> 16 < 256 && (p1 & 0xFF00) >> 8 < 256 && p1 & 0x0F < 256
    ensures p1 < 0x80_0000 ==> (p1 & 0xFF0000) >> 16 < 128
  {
  }

  /** A word whose data bytes are 7-bit and whose top byte is clear is the packing of its own fields. */
  lemma PackUnpack(p1: Word)
    requires p1 < 0x80_0000 && (p1 & 0xFF00) >> 8 < 128
    ensures 0 <= Data1(p1) < 128 && 0 <= Data2(p1) < 128
    ensures Pack(p1 & 0xF0, Byte(ChannelOf(p1)), Byte(Data1(p1)), Byte(Data2(p1))) == p1
  {
    var c, d1, d2 := p1 & 0x0F, (p1 & 0xFF00) >> 8, (p1 & 0xFF0000) >> 16;
    SplitBytes(p1);
    Low8Below128(d1);
    Low8Below128(d2);
    ByteOfLow8(c);
    ByteOfLow8(d1);
    ByteOfLow8(d2);
  }

  /** Decoding an encoded note-on gives back the channel, note and velocity. */
  lemma {:induction false} NoteOnRoundTrip(channel: int, noteId: int, velocity: int, p2: Word)
    requires ChannelIsValid(channel) && IsInMidiRange(noteId) && VelocityIsValid(velocity)
    ensures EncodeNoteOn(channel, noteId, velocity).Success?
    ensures DecodeNoteOn(EncodeNoteOn(channel, noteId, velocity).value, p2) ==
            Success(NoteFields(channel, noteId, velocity, p2))
  {
    UnpackPack(0x90, channel, noteId, velocity);
  }

  /** Decoding an encoded note-off gives back the channel, note and velocity. */
  lemma {:induction false} NoteOffRoundTrip(channel: int, noteId: int, velocity: int, p2: Word)
    requires ChannelIsValid(channel) && IsInMidiRange(noteId) && VelocityIsValid(velocity)
    ensures EncodeNoteOff(channel, noteId, velocity).Success?
    ensures DecodeNoteOff(EncodeNoteOff(channel, noteId, velocity).value, p2) ==
            Success(NoteFields(channel, noteId, velocity, p2))
  {
    UnpackPack(0x80, channel, noteId, velocity);
  }

  /**
   * The converse: re-encoding the fields of a decoded note-on reproduces the
   * word, when the word is a well-formed short message (7-bit data bytes,
   * nothing above byte 2).
   */
  lemma {:induction false} NoteOnWordRoundTrip(p1: Word, p2: Word)
    requires IsNoteOn(p1) && p1 < 0x80_0000 && (p1 & 0xFF00) >> 8 < 128
    ensures DecodeNoteOn(p1, p2).Success?
    ensures var f := DecodeNoteOn(p1, p2).value;
            EncodeNoteOn(f.channel, f.noteId, f.velocity) == Success(p1)
  {
    PackUnpack(p1);
  }

  // ---------------------------------------------------------------- control change

  function DecodeControlChange(p1: Word, p2: Word): (r: Result<ControlFields>)
    ensures r.Success? <==> IsControlChange(p1)
    ensures r.Failure? ==> r.error.Argument?
    ensures r.Success? ==> ChannelIsValid(r.value.channel) && 0 <= r.value.control < 256 &&
                           0 <= r.value.value < 256 && r.value.timestamp == p2
  {
    if !IsControlChange(p1) then Failure(Argument("Not a control message."))
    else Success(ControlFields(ChannelOf(p1), Data1(p1), Data2(p1), p2))
  }

  function EncodeControlChange(channel: int, control: int, value: int): (r: Result<Word>)
    ensures r.Success? <==> ChannelIsValid(channel) && ControlIsValid(control) && 0 <= value <= 127
    ensures r.Failure? ==> r.error.ArgumentOutOfRange?
    ensures r.Success? ==> IsControlChange(r.value) && r.value < 0x80_0000
  {
    var c := ValidateChannel(channel);
    if c.Fail? then Failure(c.error)
    else
      var k := ValidateControl(control);
      if k.Fail? then Failure(k.error)
      else if value < 0 || value > 127 then Failure(ArgumentOutOfRange("Value is out of range."))
      else Success(Pack(0xB0, Byte(channel), Byte(control), Byte(value)))
  }

  lemma {:induction false} ControlChangeRoundTrip(channel: int, control: int, value: int, p2: Word)
    requires ChannelIsValid(channel) && ControlIsValid(control) && 0 <= value <= 127
    ensures EncodeControlChange(channel, control, value).Success?
    ensures DecodeControlChange(EncodeControlChange(channel, control, value).value, p2) ==
            Success(ControlFields(channel, control, value, p2))
  {
    UnpackPack(0xB0, channel, control, value);
  }

  // ---------------------------------------------------------------- program change

  /**
   * The `Instrument` enum and its `Validate` extension are not part of this
   * model; an instrument is taken to be valid exactly when it is a 7-bit
   * program number.
   */
  predicate InstrumentIsValid(instrument: int) {
    0 <= instrument < 128
  }

  function DecodeProgramChange(p1: Word, p2: Word): (r: Result<ProgramFields>)
    ensures r.Success? <==> IsProgramChange(p1)
    ensures r.Failure? ==> r.error.Argument?
    ensures r.Success? ==> ChannelIsValid(r.value.channel) && 0 <= r.value.instrument < 256 &&
                           r.value.timestamp == p2
  {
    if !IsProgramChange(p1) then Failure(Argument("Not a program change message."))
    else Success(ProgramFields(ChannelOf(p1), Data1(p1), p2))
  }

  function EncodeProgramChange(channel: int, instrument: int): (r: Result<Word>)
    ensures r.Success? <==> ChannelIsValid(channel) && InstrumentIsValid(instrument)
    ensures r.Failure? ==> r.error.ArgumentOutOfRange?
    ensures r.Success? ==> IsProgramChange(r.value) && r.value < 0x8000
  {
    var c := ValidateChannel(channel);
    if c.Fail? then Failure(c.error)
    else if !InstrumentIsValid(instrument) then Failure(ArgumentOutOfRange("instrument"))
    else Success(Pack(0xC0, Byte(channel), Byte(instrument), Byte(0)))
  }

  lemma {:induction false} ProgramChangeRoundTrip(channel: int, instrument: int, p2: Word)
    requires ChannelIsValid(channel) && InstrumentIsValid(instrument)
    ensures EncodeProgramChange(channel, instrument).Success?
    ensures DecodeProgramChange(EncodeProgramChange(channel, instrument).value, p2) ==
            Success(ProgramFields(channel, instrument, p2))
  {
    UnpackPack(0xC0, channel, instrument, 0);
  }

  // ---------------------------------------------------------------- pitch bend

  /** A 14-bit value as a word: its low byte and its high byte. */
  function Word14(v: int): Word
    requires 0 <= v <= PitchBendMax
  {
    Byte(v % 256) | (Byte(v / 256) << 8)
  }

  /** Bits 0..13 of a word as an integer. */
  function Int14(w: Word): int {
    Low8(w) + 256 * Low8(w >> 8)
  }

  /** `(value & 0x7f) << 8 | (value & 0x3f80) << 9`: the 7-bit halves go to bytes 1 and 2. */
  function PackBend(v: Word): Word {
    ((v & 0x7F) << 8) | ((v & 0x3F80) << 9)
  }

  /** `((p1 >> 9) & 0x3f80) | ((p1 >> 8) & 0x7f)`: the two halves recombined. */
  function UnpackBend(p1: Word): Word {
    ((p1 >> 9) & 0x3F80) | ((p1 >> 8) & 0x7F)
  }

  function DecodePitchBend(p1: Word, p2: Word): (r: Result<PitchBendFields>)
    ensures r.Success? <==> IsPitchBend(p1)
    ensures r.Failure? ==> r.error.Argument?
    ensures r.Success? ==> ChannelIsValid(r.value.channel) && r.value.timestamp == p2
    ensures r.Success? ==> 0 <= r.value.value <= PitchBendMax
  {
    if !IsPitchBend(p1) then Failure(Argument("Not a pitch bend message."))
    else Success(PitchBendFields(ChannelOf(p1), Int14(UnpackBend(p1)), p2))
  }

  function EncodePitchBend(channel: int, value: int): (r: Result<Word>)
    ensures r.Success? <==> ChannelIsValid(channel) && 0 <= value <= PitchBendMax
    ensures r.Failure? ==> r.error.ArgumentOutOfRange?
  {
    var c := ValidateChannel(channel);
    if c.Fail? then Failure(c.error)
    else if value < 0 || value > 16383 then Failure(ArgumentOutOfRange("Value is out of range."))
    else Success(0xE0 | Byte(channel) | PackBend(Word14(value)))
  }

  lemma Word14Parts(lo: Word, hi: Word)
    requires lo < 256 && hi < 64
    ensures (lo | (hi << 8)) & 0xFF == lo & 0xFF
    ensures ((lo | (hi << 8)) >> 8) & 0xFF == hi & 0xFF
    ensures (lo | (hi << 8)) < 0x4000
  {
  }

  lemma Int14OfWord14(v: int)
    requires 0 <= v <= PitchBendMax
    ensures Word14(v) < 0x4000
    ensures Int14(Word14(v)) == v
  {
    var lo, hi := v % 256, v / 256;
    SmallByte(hi);
    Low8OfByte(lo);
    Low8OfByte(hi);
    Word14Parts(Byte(lo), Byte(hi));
  }

  lemma BendBits(c: Word, v: Word)
    requires c < 16 && v < 0x4000
    ensures (0xE0 | c | PackBend(v)) & 0xF0 == 0xE0
    ensures (0xE0 | c | PackBend(v)) & 0x0F == c
    ensures UnpackBend(0xE0 | c | PackBend(v)) == v
  {
  }

  /** Pitch bend round-trips over the whole 14-bit range, split into and recombined from 7-bit halves. */
  lemma {:induction false} PitchBendRoundTrip(channel: int, value: int, p2: Word)
    requires ChannelIsValid(channel) && 0 <= value <= PitchBendMax
    ensures EncodePitchBend(channel, value).Success?
    ensures DecodePitchBend(EncodePitchBend(channel, value).value, p2) ==
            Success(PitchBendFields(channel, value, p2))
  {
    Int14OfWord14(value);
    BendBits(Byte(channel), Word14(value));
    Low8OfByte(channel);
  }

  // ---------------------------------------------------------------- real time

  /** The low three bits of a real-time status byte, per the System Real Time Messages section. */
  function DecodeRealTime(p1: Word, p2: Word): (r: Result<RealTimeFields>)
    ensures r.Success? ==> IsRealTime(p1) && r.value.timestamp == p2
    ensures !IsRealTime(p1) ==> r == Failure(Argument("Not a real time message."))
  {
    if !IsRealTime(p1) then Failure(Argument("Not a real time message."))
    else
      var b := p1 & 0x07;
      if b == 0 then Success(RealTimeFields(TimingClock, p2))
      else if b == 2 then Success(RealTimeFields(Start, p2))
      else if b == 3 then Success(RealTimeFields(Continue, p2))
      else if b == 4 then Success(RealTimeFields(Stop, p2))
      else if b == 6 then Success(RealTimeFields(ActiveSensing, p2))
      else if b == 7 then Success(RealTimeFields(SystemReset, p2))
      else if b == 1 || b == 5 then Success(RealTimeFields(Undefined, p2))
      else Failure(Argument("Invalid realtime message."))
  }

  /**
   * The status byte of each real-time message in the MIDI 1.0 Detailed
   * Specification (0xF9 and 0xFD are the undefined codes); an independent
   * reference for the decoder.
   */
  function RealTimeStatus(t: RealTimeMessageType): Word {
    match t
    case TimingClock => 0xF8
    case Start => 0xFA
    case Continue => 0xFB
    case Stop => 0xFC
    case Undefined => 0xF9
    case ActiveSensing => 0xFE
    case SystemReset => 0xFF
  }

  /** The decoder's default branch is unreachable: every real-time word decodes. */
  lemma RealTimeAlwaysDecodes(p1: Word, p2: Word)
    requires IsRealTime(p1)
    ensures DecodeRealTime(p1, p2).Success?
    ensures DecodeRealTime(p1, p2).value.msgType == Undefined <==> (p1 & 0x07 == 1 || p1 & 0x07 == 5)
  {
  }

  /** Decoding the specification's status byte for each message type gives that type back. */
  lemma RealTimeRoundTrip(t: RealTimeMessageType, p2: Word)
    ensures IsRealTime(RealTimeStatus(t))
    ensures DecodeRealTime(RealTimeStatus(t), p2) == Success(RealTimeFields(t, p2))
  {
  }

  /** Only the timing-clock word (0xF8 in its low byte) decodes to `TimingClock`. */
  lemma TimingClockIsF8(p1: Word, p2: Word)
    ensures (DecodeRealTime(p1, p2).Success? && DecodeRealTime(p1, p2).value.msgType == TimingClock)
            <==> p1 & 0xFF == 0xF8
  {
  }
}
