/**
 * Range validators for the MIDI value types: the `Channel` and `Control`
 * enums (whose underlying type is `int`, so any integer can be cast to
 * them) and the note-id range check.
 */
module Midi {
  import opened Common

  /** Timing clocks per beat, fixed by the MIDI 1.0 specification. */
  const ClocksPerBeat: int := 24

  /** The sixteen named members `Channel1` .. `Channel16` of the `Channel` enum. */
  const NamedChannels: seq<int> := [0, 1, 2, 3, 4, 5, 6, 7, 8, 9, 10, 11, 12, 13, 14, 15]

  /** The named members of the `Control` enum. */
  const NamedControls: seq<int> :=
    [1, 6, 7, 10, 11, 38, 64, 91, 92, 93, 94, 95, 98, 99, 100, 101, 121, 123]

  /** `ChannelExtensions.IsValid`: a channel is one of the sixteen MIDI channels. */
  predicate ChannelIsValid(channel: int) {
    channel >= 0 && channel < 16
  }

  /** `ChannelExtensions.Validate`: throws for an invalid channel, otherwise does nothing. */
  function ValidateChannel(channel: int): (r: Outcome)
    ensures r.Pass? <==> ChannelIsValid(channel)
    ensures r.Fail? ==> r.error.ArgumentOutOfRange?
  {
    if !ChannelIsValid(channel) then Fail(ArgumentOutOfRange("Channel out of range")) else Pass
  }

  /** `ControlExtensions.IsValid`: a controller number is a 7-bit value. */
  predicate ControlIsValid(control: int) {
    control >= 0 && control < 128
  }

  /** `ControlExtensions.Validate`. */
  function ValidateControl(control: int): (r: Outcome)
    ensures r.Pass? <==> ControlIsValid(control)
    ensures r.Fail? ==> r.error.ArgumentOutOfRange?
  {
    if !ControlIsValid(control) then Fail(ArgumentOutOfRange("Control out of range")) else Pass
  }

  /**
   * `MidiUtils.IsInMidiRange`. Its summary comment says [1..127], but the
   * code accepts 0 as well.
   */
  predicate IsInMidiRange(noteId: int) {
    noteId >= 0 && noteId < 128
  }

  /** Every named channel passes validation, and they are sixteen distinct channels. */
  lemma NamedChannelsAreValid()
    ensures forall i :: 0 <= i < |NamedChannels| ==> ChannelIsValid(NamedChannels[i])
    ensures forall c :: ChannelIsValid(c) <==> c in NamedChannels
  {
  }

  /** Every named controller passes validation. */
  lemma NamedControlsAreValid()
    ensures forall i :: 0 <= i < |NamedControls| ==> ControlIsValid(NamedControls[i])
  {
  }

  /** The note range includes both 0 and 127 and nothing outside [0, 128). */
  lemma MidiRangeEnds()
    ensures IsInMidiRange(0) && IsInMidiRange(127)
    ensures !IsInMidiRange(128) && !IsInMidiRange(-1)
  {
  }
}
