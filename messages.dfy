/**
 * The channel-voice message classes. In the source each is an immutable
 * object whose constructor validates its arguments (channel first, in the
 * `ChannelMessage` base constructor, then its own fields) and throws on the
 * first bad one; here a message is a datatype value and each constructor is
 * a function returning either the message or the exception it would throw.
 */
module Messages {
  import opened Common
  import opened Midi

  /** `RealTimeMessageType`: the one-byte system real-time messages. */
  datatype RealTimeMessageType =
    TimingClock | Start | Continue | Stop | Undefined | ActiveSensing | SystemReset

  datatype ChannelMessage =
    | NoteOn(channel: int, noteId: int, velocity: int)
    | NoteOff(channel: int, noteId: int, velocity: int)
    | ControlChange(channel: int, control: int, value: int)
    | PitchBend(channel: int, value: int)

  /** The largest 14-bit pitch-bend value; 8192 is the centre. */
  const PitchBendMax: int := 16383
  const PitchBendCentre: int := 8192

  predicate VelocityIsValid(velocity: int) {
    0 <= velocity <= 127
  }

  /** What every constructed message satisfies: all of its fields are in range. */
  predicate WellFormed(m: ChannelMessage) {
    ChannelIsValid(m.channel) &&
    match m
    case NoteOn(_, n, v) => IsInMidiRange(n) && VelocityIsValid(v)
    case NoteOff(_, n, v) => IsInMidiRange(n) && VelocityIsValid(v)
    case ControlChange(_, c, v) => ControlIsValid(c) && 0 <= v <= 127
    case PitchBend(_, v) => 0 <= v <= PitchBendMax
  }

  /** The checks of the `NoteMessage` constructor, after its base constructor's channel check. */
  function CheckNote(channel: int, noteId: int, velocity: int): (r: Outcome)
    ensures r.Pass? <==> ChannelIsValid(channel) && IsInMidiRange(noteId) && VelocityIsValid(velocity)
    ensures !ChannelIsValid(channel) ==> r == Fail(ArgumentOutOfRange("Channel out of range"))
    ensures ChannelIsValid(channel) && !IsInMidiRange(noteId) ==> r == Fail(ArgumentOutOfRange("note ID is out of MIDI range."))
    ensures ChannelIsValid(channel) && IsInMidiRange(noteId) && !VelocityIsValid(velocity) ==>
              r == Fail(ArgumentOutOfRange("velocity"))
  {
    var c := ValidateChannel(channel);
    if c.Fail? then c
    else if !IsInMidiRange(noteId) then Fail(ArgumentOutOfRange("note ID is out of MIDI range."))
    else if velocity < 0 || velocity > 127 then Fail(ArgumentOutOfRange("velocity"))
    else Pass
  }

  /** `new NoteOnMessage(channel, noteId, velocity)`; it adds no checks to `NoteMessage`'s. */
  function NewNoteOn(channel: int, noteId: int, velocity: int): (r: Result<ChannelMessage>)
    ensures r.Success? <==> CheckNote(channel, noteId, velocity).Pass?
    ensures r.Success? ==> r.value == NoteOn(channel, noteId, velocity) && WellFormed(r.value)
    ensures r.Failure? ==> r.error == CheckNote(channel, noteId, velocity).error
  {
    var c := CheckNote(channel, noteId, velocity);
    if c.Fail? then Failure(c.error) else Success(NoteOn(channel, noteId, velocity))
  }

  /** `new NoteOffMessage(channel, noteId, velocity)`; it adds no checks to `NoteMessage`'s. */
  function NewNoteOff(channel: int, noteId: int, velocity: int): (r: Result<ChannelMessage>)
    ensures r.Success? <==> CheckNote(channel, noteId, velocity).Pass?
    ensures r.Success? ==> r.value == NoteOff(channel, noteId, velocity) && WellFormed(r.value)
    ensures r.Failure? ==> r.error == CheckNote(channel, noteId, velocity).error
  {
    var c := CheckNote(channel, noteId, velocity);
    if c.Fail? then Failure(c.error) else Success(NoteOff(channel, noteId, velocity))
  }

  /**
   * `new ControlChangeMessage(channel, control, value)`: channel, then control,
   * then value. A bad value is reported under the parameter name "control".
   */
  function NewControlChange(channel: int, control: int, value: int): (r: Result<ChannelMessage>)
    ensures r.Success? <==> ChannelIsValid(channel) && ControlIsValid(control) && 0 <= value <= 127
    ensures r.Success? ==> r.value == ControlChange(channel, control, value) && WellFormed(r.value)
    ensures !ChannelIsValid(channel) ==> r == Failure(ArgumentOutOfRange("Channel out of range"))
    ensures ChannelIsValid(channel) && !ControlIsValid(control) ==> r == Failure(ArgumentOutOfRange("Control out of range"))
    ensures ChannelIsValid(channel) && ControlIsValid(control) && !(0 <= value <= 127) ==>
              r == Failure(ArgumentOutOfRange("control"))
  {
    var c := ValidateChannel(channel);
    if c.Fail? then Failure(c.error)
    else
      var k := ValidateControl(control);
      if k.Fail? then Failure(k.error)
      else if value < 0 || value > 127 then Failure(ArgumentOutOfRange("control"))
      else Success(ControlChange(channel, control, value))
  }

  /** `new PitchBendMessage(channel, value)`: channel, then the 14-bit value. */
  function NewPitchBend(channel: int, value: int): (r: Result<ChannelMessage>)
    ensures r.Success? <==> ChannelIsValid(channel) && 0 <= value <= PitchBendMax
    ensures r.Success? ==> r.value == PitchBend(channel, value) && WellFormed(r.value)
    ensures !ChannelIsValid(channel) ==> r == Failure(ArgumentOutOfRange("Channel out of range"))
    ensures ChannelIsValid(channel) && !(0 <= value <= PitchBendMax) ==> r == Failure(ArgumentOutOfRange("value"))
  {
    var c := ValidateChannel(channel);
    if c.Fail? then Failure(c.error)
    else if value < 0 || value > 16383 then Failure(ArgumentOutOfRange("value"))
    else Success(PitchBend(channel, value))
  }

  /** Rebuilds a message through the constructor of its own kind, from its accessors. */
  function Reconstruct(m: ChannelMessage): Result<ChannelMessage> {
    match m
    case NoteOn(c, n, v) => NewNoteOn(c, n, v)
    case NoteOff(c, n, v) => NewNoteOff(c, n, v)
    case ControlChange(c, k, v) => NewControlChange(c, k, v)
    case PitchBend(c, v) => NewPitchBend(c, v)
  }

  /**
   * The constructors admit exactly the well-formed messages: passing a
   * message's accessors back to its constructor succeeds and yields the same
   * message precisely when every field is in range. So no message with an
   * out-of-range field (an invalid channel in particular) can exist.
   */
  lemma ConstructorsAdmitExactlyWellFormed(m: ChannelMessage)
    ensures Reconstruct(m).Success? <==> WellFormed(m)
    ensures Reconstruct(m).Success? ==> Reconstruct(m).value == m
  {
  }

  /** Velocity 0, note 0 and note 127 are accepted; note 128 and velocity 128 are not. */
  lemma NoteBoundaries(channel: int)
    requires ChannelIsValid(channel)
    ensures NewNoteOn(channel, 0, 0).Success? && NewNoteOff(channel, 127, 127).Success?
    ensures NewNoteOn(channel, 128, 0) == Failure(ArgumentOutOfRange("note ID is out of MIDI range."))
    ensures NewNoteOn(channel, 0, 128) == Failure(ArgumentOutOfRange("velocity"))
  {
  }

  /** 0, the centre 8192 and 16383 are accepted pitch-bend values; 16384 and -1 are not. */
  lemma PitchBendBoundaries(channel: int)
    requires ChannelIsValid(channel)
    ensures NewPitchBend(channel, 0).Success? && NewPitchBend(channel, PitchBendCentre).Success?
    ensures NewPitchBend(channel, PitchBendMax).Success?
    ensures NewPitchBend(channel, 16384).Failure? && NewPitchBend(channel, -1).Failure?
  {
  }
}
