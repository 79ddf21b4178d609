# Redzen.Midi step sequencer — a Dafny model

This project models the scheduling core of Redzen.Midi and the command parsing of its drum-machine console (Redzen.MidiDrummer). Everything is proved in Dafny.

The sequencer plays a list of fixed-length sequences against a MIDI clock that ticks 24 times per beat. On every running tick it does four things, in order:

1. It switches off the live notes whose time is up.
2. It switches on the notes in the current slot of every enabled sequence and registers them as live, keeping the live list sorted by ticks remaining.
3. It advances every cursor, wrapping at the sequence's length.
4. It counts the tick.

The modules, leaves first:

- `Common` — the exceptions the core throws, as `Result`/`Outcome` values, and C#'s unchecked 32-bit `int` arithmetic (`Wrap32`, the truncating remainder `CsRem`, `Clamp`).
- `Midi` — the `Channel` and `Control` validators and `MidiUtils.IsInMidiRange`.
- `Messages` — the validating constructors of the channel-voice message classes, as functions returning the message or the exception.
- `Bytes`, `ShortMsg` — the Win32 short-message codec on `bv32` words (`Is*`, `Encode*`, `Decode*`, `DecodeRealTime`) with round-trip lemmas. The status values are those of the MIDI 1.0 Detailed Specification's Channel Voice Messages and System Real Time Messages sections.
- `Sequences` — `SequenceNote` (a datatype) and `Sequence` (a class over an `array` of slots), with its factories.
- `LiveNotes` — the `LiveNote` class, and the off-pass and sorted-insert operations on snapshots of the live list, with their order and timing lemmas.
- `Sequencing` — the `Sequencer` class:
  - its tick handler, written as methods whose loops carry invariants;
  - a ghost log `sent` of the messages handed to the output device;
  - a ghost running-tick count against which the timing law is proved: a note switched on at running tick `t` with duration `n` is switched off at tick `t + n`.
- `Generation` — `SequenceGenerator`. The random draw is an oracle `below(k)`.
- `Clocks` — `InternalMidiClock` and `ExternalMidiClock`. The timer and the input device are modelled by the calls the clocks make on them; each raised `TimingClock` event is counted in a ghost counter.
- `Text` — the .NET string operations the console relies on (`ToLowerInvariant`, `Trim`, `Split`, `int.TryParse`, `int.ToString`).
- `DrummerUtils` — `Utils`: the sequence-index and pattern-note descriptor parsers and the note-list formatter.
- `Drummer` — `DrummerConsole`:
  - splitting a command line;
  - the numeric settings;
  - the tempo step;
  - the BPM prompt's guard;
  - the `ns`, `d`, `m`, `u` and `o` commands on the sequencer's list.

Where the model deliberately departs from the code, the departure is listed under "Left out" or "Findings".

## Model

| member | source | states |
|---|---|---|
| Midi.ValidateChannel | src/Redzen.Midi/ChannelExtensions.cs:16-31 | `Validate` passes exactly for the channels 0..15 (`IsValid`) and otherwise throws `ArgumentOutOfRangeException` |
| Midi.ValidateControl | src/Redzen.Midi/ControlExtensions.cs:18-33 | `Validate` passes exactly for the controllers 0..127 and otherwise throws `ArgumentOutOfRangeException` |
| Midi.ChannelIsValid | src/Redzen.Midi/ChannelExtensions.cs:16-19 | a channel is valid exactly when it is one of the sixteen channel indexes 0..15 |
| Midi.ControlIsValid | src/Redzen.Midi/ControlExtensions.cs:18-21 | a controller number is valid exactly when it is a 7-bit value 0..127 |
| Midi.IsInMidiRange | src/Redzen.Midi/MidiUtils.cs:10-13 | a note id is in MIDI range exactly when it lies in 0..127; 0 is accepted although the summary comment says 1..127 |
| Midi.NamedChannelsAreValid | src/Redzen.Midi/Channel.cs:17-47 | the sixteen named channels all pass `IsValid`, and a channel is valid exactly when it is one of them |
| Midi.NamedControlsAreValid | src/Redzen.Midi/Control.cs:20-54 | every named `Control` member passes `IsValid` |
| Midi.MidiRangeEnds | src/Redzen.Midi/MidiUtils.cs:10-13 | `IsInMidiRange` accepts 0 (despite its summary saying 1..127) and 127, and rejects 128 and -1 |
| Messages.CheckNote | src/Redzen.Midi/Messages/NoteMessage.cs:18-30 | the note constructor accepts exactly a valid channel, note 0..127 and velocity 0..127, and reports the first bad argument in the order channel, note, velocity with the source's messages |
| Messages.NewNoteOn | src/Redzen.Midi/Messages/NoteOnMessage.cs:15-16 | `NoteOnMessage` adds no check of its own: it succeeds exactly when the note checks pass, with the given fields and a well-formed message, and otherwise fails with their error |
| Messages.NewNoteOff | src/Redzen.Midi/Messages/NoteOffMessage.cs:17-18 | the same for `NoteOffMessage` |
| Messages.NewControlChange | src/Redzen.Midi/Messages/ControlChangeMessage.cs:32-41 | succeeds exactly for a valid channel, control 0..127 and value 0..127; the channel is checked first, then the control, then the value (reported as "control") |
| Messages.NewPitchBend | src/Redzen.Midi/Messages/PitchBendMessage.cs:19-26 | succeeds exactly for a valid channel and a value 0..16383, the channel checked first |
| Messages.ConstructorsAdmitExactlyWellFormed | src/Redzen.Midi/Messages/ChannelMessage.cs:18-22 | rebuilding a message through its constructor succeeds, and gives the same message, exactly when every field is in range: no message with an invalid channel or field can exist |
| Messages.NoteBoundaries | src/Redzen.Midi/Messages/NoteMessage.cs:21-27 | note 0, note 127 and velocity 0 are accepted; note 128 and velocity 128 are rejected with their own messages |
| Messages.PitchBendBoundaries | src/Redzen.Midi/Messages/PitchBendMessage.cs:22-24 | 0, the centre 8192 and 16383 are accepted; -1 and 16384 are rejected |
| ShortMsg.KindsAreExclusive | src/Redzen.Midi/Win32/ShortMsg.cs:18-277 | no word satisfies two of `IsNoteOn`, `IsNoteOff`, `IsControlChange`, `IsProgramChange`, `IsPitchBend` and `IsRealTime` (status nibbles 0x8, 0x9, 0xB, 0xC, 0xE against the 0xF8 mask) |
| ShortMsg.IsNoteOn | src/Redzen.Midi/Win32/ShortMsg.cs:18-21 | a word is a note-on exactly when its status nibble (`p1 & 0xF0`) is 0x90, whatever its channel |
| ShortMsg.IsNoteOff | src/Redzen.Midi/Win32/ShortMsg.cs:73-76 | a word is a note-off exactly when its status nibble is 0x80 |
| ShortMsg.IsControlChange | src/Redzen.Midi/Win32/ShortMsg.cs:127-130 | a word is a control change exactly when its status nibble is 0xB0 |
| ShortMsg.IsProgramChange | src/Redzen.Midi/Win32/ShortMsg.cs:179-182 | a word is a program change exactly when its status nibble is 0xC0 |
| ShortMsg.IsPitchBend | src/Redzen.Midi/Win32/ShortMsg.cs:225-228 | a word is a pitch bend exactly when its status nibble is 0xE0 |
| ShortMsg.IsRealTime | src/Redzen.Midi/Win32/ShortMsg.cs:274-277 | a word is a system real-time message exactly when its top five status bits are set (`p1 & 0xF8 == 0xF8`), i.e. its status byte is 0xF8..0xFF |
| ShortMsg.DecodeNoteOn | src/Redzen.Midi/Win32/ShortMsg.cs:32-42 | succeeds exactly when `IsNoteOn`, otherwise throws `ArgumentException`; the channel is 0..15, the data bytes 0..255 and the timestamp is `dwParam2` |
| ShortMsg.EncodeNoteOn | src/Redzen.Midi/Win32/ShortMsg.cs:52-62 | succeeds exactly for a valid channel, note 0..127 and velocity 0..127, else `ArgumentOutOfRangeException`; the word is a note-on with nothing above byte 2 |
| ShortMsg.DecodeNoteOff | src/Redzen.Midi/Win32/ShortMsg.cs:87-97 | as `DecodeNoteOn`, for `IsNoteOff` |
| ShortMsg.EncodeNoteOff | src/Redzen.Midi/Win32/ShortMsg.cs:106-116 | as `EncodeNoteOn`, giving a note-off word |
| ShortMsg.NoteOnRoundTrip | src/Redzen.Midi/Win32/ShortMsg.cs:38-41 | decoding an encoded note-on gives back the channel, note, velocity and timestamp |
| ShortMsg.NoteOffRoundTrip | src/Redzen.Midi/Win32/ShortMsg.cs:93-96 | decoding an encoded note-off gives back the channel, note, velocity and timestamp |
| ShortMsg.NoteOnWordRoundTrip | src/Redzen.Midi/Win32/ShortMsg.cs:61 | re-encoding a decoded note-on word with 7-bit data bytes and nothing above byte 2 gives the word back |
| ShortMsg.PackFields | src/Redzen.Midi/Win32/ShortMsg.cs:61 | status, channel and the two data bytes of a packed word sit in their own bits |
| ShortMsg.DecodeControlChange | src/Redzen.Midi/Win32/ShortMsg.cs:141-151 | succeeds exactly when `IsControlChange`, otherwise `ArgumentException`; fields as read from the word |
| ShortMsg.EncodeControlChange | src/Redzen.Midi/Win32/ShortMsg.cs:160-168 | succeeds exactly for a valid channel, control and value 0..127, giving a control-change word |
| ShortMsg.ControlChangeRoundTrip | src/Redzen.Midi/Win32/ShortMsg.cs:147-150 | decoding an encoded control change gives back channel, control, value and timestamp |
| ShortMsg.DecodeProgramChange | src/Redzen.Midi/Win32/ShortMsg.cs:192-201 | succeeds exactly when `IsProgramChange`, otherwise `ArgumentException` |
| ShortMsg.EncodeProgramChange | src/Redzen.Midi/Win32/ShortMsg.cs:209-214 | succeeds exactly for a valid channel and instrument 0..127, giving a program-change word |
| ShortMsg.ProgramChangeRoundTrip | src/Redzen.Midi/Win32/ShortMsg.cs:198-200 | decoding an encoded program change gives back channel, instrument and timestamp |
| ShortMsg.DecodePitchBend | src/Redzen.Midi/Win32/ShortMsg.cs:238-247 | succeeds exactly when `IsPitchBend`, otherwise `ArgumentException` |
| ShortMsg.EncodePitchBend | src/Redzen.Midi/Win32/ShortMsg.cs:255-263 | succeeds exactly for a valid channel and a value 0..16383 |
| ShortMsg.BendBits | src/Redzen.Midi/Win32/ShortMsg.cs:245 | the decoder's recombination of bytes 1 and 2 undoes the encoder's 7-bit split |
| ShortMsg.PitchBendRoundTrip | src/Redzen.Midi/Win32/ShortMsg.cs:244-246 | pitch bend round-trips over the whole 14-bit range |
| ShortMsg.DecodeRealTime | src/Redzen.Midi/Win32/ShortMsg.cs:285-322 | succeeds only on a real-time word, with `dwParam2` as timestamp; any other word throws `ArgumentException("Not a real time message.")` |
| ShortMsg.RealTimeAlwaysDecodes | src/Redzen.Midi/Win32/ShortMsg.cs:293-320 | every real-time word decodes (the default branch is unreachable), to `Undefined` exactly for the low bits 1 and 5 |
| ShortMsg.RealTimeRoundTrip | src/Redzen.Midi/Win32/ShortMsg.cs:296-317 | the MIDI 1.0 status byte of each real-time message decodes to that message |
| ShortMsg.TimingClockIsF8 | src/Redzen.Midi/Win32/ShortMsg.cs:296-298 | a word decodes to `TimingClock` exactly when its low byte is 0xF8 |
| Sequences.Sequence.constructor | src/Redzen.Midi/Sequencing/Sequence.cs:67-72 | a new sequence has the given channel, `Length` equal to `lengthInTicks`, every slot empty, `Position` 0 and `IsEnabled` false |
| Sequences.Sequence.AddNote | src/Redzen.Midi/Sequencing/Sequence.cs:83-91 | the note is appended at the end of slot `timeSlot`; every other slot, the length, channel, cursor and flag are unchanged; the slot index must lie in the grid (the array index throws otherwise) |
| Sequences.Sequence.Length | src/Redzen.Midi/Sequencing/Sequence.cs:38 | the length in clock ticks is the number of slots of the grid |
| Sequences.Sequence.At | src/Redzen.Midi/Sequencing/Sequence.cs:45 | the indexer gives the notes of slot `idx` of the grid, for an index inside the grid |
| Sequences.CreateLengthInMidiClockTicks | src/Redzen.Midi/Sequencing/Sequence.cs:103-106 | a fresh blank sequence of `ticks` slots, or the overflow exception of a negative array size |
| Sequences.BeatsToTicks | src/Redzen.Midi/Sequencing/Sequence.cs:116 | the 32-bit product `beats * 24`: exactly `beats * 24` when that fits, so negative for a negative beat count whose product fits in 32 bits |
| Sequences.CreateLengthInBeats | src/Redzen.Midi/Sequencing/Sequence.cs:114-117 | a fresh blank sequence of `BeatsToTicks(beats)` slots, failing exactly when that product is negative |
| Sequences.BeatsAreClockTicks | src/Redzen.Midi/Sequencing/Sequence.cs:114-117 | a beat count whose product fits gives 24 slots per beat, a whole number of beats |
| Sequences.BeatsWrap | src/Redzen.Midi/Sequencing/Sequence.cs:116 | past `int.MaxValue / 24` beats the product wraps: one more beat gives a negative length, 2^29 beats gives 0; below `int.MinValue / 24` a negative count gives 0 (-2^29 beats) or a large positive length (-89478486 beats gives 2147483632) |
| LiveNotes.LiveNote.constructor | src/Redzen.Midi/Sequencing/LiveNote.cs:12-17 | stores note id, channel and ticks remaining exactly, validating none of them |
| LiveNotes.ExpiredCount | src/Redzen.Midi/Sequencing/Sequencer.cs:127-135 | the note-off scan stops at the first entry whose `TicksRemaining` is not 1: every entry before it has exactly one tick left |
| LiveNotes.OffPassSplits | src/Redzen.Midi/Sequencing/Sequencer.cs:127-142 | the entries switched off and the entries kept make up the whole list, in order |
| LiveNotes.OffPassKeepsOrder | src/Redzen.Midi/Sequencing/Sequencer.cs:138-142 | removing the expired prefix and decrementing the rest keeps the list ascending by ticks remaining |
| LiveNotes.ExpiryIsExactlyTheDueNotes | src/Redzen.Midi/Sequencing/Sequencer.cs:128 | with every note at one tick or more, the prefix switched off is exactly the set of notes with one tick left, and every note kept still has a tick left |
| LiveNotes.StuckHeadBlocksExpiry | src/Redzen.Midi/Sequencing/Sequencer.cs:128 | a head with `TicksRemaining < 1` stops the scan at once and stays below 1 after the pass, so nothing behind it is ever switched off |
| LiveNotes.OffPassDue | src/Redzen.Midi/Sequencing/Sequencer.cs:127-142 | the notes switched off at running tick `now` are exactly those due at `now`; the rest are due later and remain in step for the next tick |
| LiveNotes.InsertPoint | src/Redzen.Midi/Sequencing/Sequencer.cs:184-187 | the tail scan stops after the last entry with no more ticks left than the new duration; every entry it passes has more |
| LiveNotes.InsertPosition | src/Redzen.Midi/Sequencing/Sequencer.cs:184-194 | in a sorted list the new note lands after every entry with at most its ticks (so after equal ones) and before every entry with more |
| LiveNotes.InsertAddsOne | src/Redzen.Midi/Sequencing/Sequencer.cs:189-194 | registering grows the list by exactly the new note (multiset and membership) |
| LiveNotes.InsertKeepsOrder | src/Redzen.Midi/Sequencing/Sequencer.cs:182-194 | registering keeps the list ascending by ticks remaining |
| LiveNotes.InsertDue | src/Redzen.Midi/Sequencing/Sequencer.cs:180 | a note registered with its duration as ticks remaining keeps every note's off tick in step with its ticks remaining |
| Sequencing.CuesOf | src/Redzen.Midi/Sequencing/Sequencer.cs:168-175 | the notes of a slot are played in slot order, each on the sequence's channel |
| Sequencing.OnMessages | src/Redzen.Midi/Sequencing/Sequencer.cs:171 | one `NoteOnMessage(channel, noteId, velocity)` per cue, in order |
| Sequencing.OffMessages | src/Redzen.Midi/Sequencing/Sequencer.cs:145-147 | one `NoteOffMessage(channel, noteId, 0)` per expired note, in list order |
| Sequencing.AdvanceWraps | src/Redzen.Midi/Sequencing/Sequencer.cs:112-114 | inside the grid the cursor step is `(position + 1) % Length`, so the cursor stays in `[0, Length)` |
| Sequencing.SyncPosition | src/Redzen.Midi/Sequencing/Sequencer.cs:86-87 | the position given to an added sequence lies in the grid, is in step with the tick count (congruent to it modulo the length), and equals `_tickCount % Length` while the count is non-negative |
| Sequencing.SyncPositionAfterWrap | src/Redzen.Midi/Sequencing/Sequencer.cs:87 | after 2^31 running ticks the count wraps to -2^31 and the source's `%` gives -2 for a sequence of length 3, where the corrected position is 1; even that is out of step with the 2^31 ticks counted, since 2^31 is not a multiple of 3 |
| Sequencing.RegisterAllAdds | src/Redzen.Midi/Sequencing/Sequencer.cs:168-175 | the note-on pass adds exactly one live note per note played and removes none |
| Sequencing.RegisterAllKeeps | src/Redzen.Midi/Sequencing/Sequencer.cs:178-195 | registering playable notes keeps the live list sorted, sound and in step with the next tick |
| Sequencing.RegisteredNoteIsDue | src/Redzen.Midi/Sequencing/Sequencer.cs:180 | a note switched on at running tick t with duration n is live with n ticks left and due off at tick t + n |
| Sequencing.OffMessagesWellFormed | src/Redzen.Midi/Sequencing/Sequencer.cs:146 | the note-offs built for sounding notes never throw: they are well-formed messages |
| Sequencing.OnMessagesWellFormed | src/Redzen.Midi/Sequencing/Sequencer.cs:171 | the note-ons built for playable notes are well-formed messages |
| Sequencing.AdvanceInStep | src/Redzen.Midi/Sequencing/Sequencer.cs:110-116 | the cursor step together with `_tickCount++` keeps a cursor in step with the count, and never brings an out-of-step cursor into step |
| Sequencing.StartThenAddOutOfStep | src/Redzen.Midi/Sequencing/Sequencer.cs:55-61 | after 5 ticks, a stop and a start, an 8-slot sequence is at 0 while one added then is placed at 5: no count has both in step, so they stay 5 slots apart |
| Sequencing.OffPassKeeps | src/Redzen.Midi/Sequencing/Sequencer.cs:124-151 | after the note-off pass the live notes are distinct, sorted, sound and due against the next tick, and a note stays live exactly when this tick is not its off tick |
| Sequencing.Sequencer.constructor | src/Redzen.Midi/Sequencing/Sequencer.cs:29-35 | a new sequencer is stopped, at tick 0, with no sequences, no live notes and nothing sent; its (empty) list is in sync |
| Sequencing.Sequencer.Start | src/Redzen.Midi/Sequencing/Sequencer.cs:55-62 | every cursor goes back to 0 and the sequencer runs; flags, list, live notes and tick count are unchanged; the sequences are in sync afterwards exactly when the kept tick count is a multiple of every length |
| Sequencing.Sequencer.Restart | src/Redzen.Midi/Sequencing/Sequencer.cs:55-61 | the intended `Start`: cursors and tick count both go back to 0, so the sequences are in sync and the rest is unchanged |
| Sequencing.Sequencer.Stop | src/Redzen.Midi/Sequencing/Sequencer.cs:64-67 | only the running flag is cleared, so the sync of the sequences is kept |
| Sequencing.Sequencer.Continue | src/Redzen.Midi/Sequencing/Sequencer.cs:69-72 | only the running flag is set; the cursors stay where they were, so the sync of the sequences is kept |
| Sequencing.Sequencer.AddSequence | src/Redzen.Midi/Sequencing/Sequencer.cs:78-89 | an empty sequence is ignored; any other is appended at the end with its cursor in step with the tick count; nothing else changes; sequences in sync stay in sync while the 32-bit count has not wrapped |
| Sequencing.Sequencer.UnlinkExpired | src/Redzen.Midi/Sequencing/Sequencer.cs:127-135 | the first loop unlinks exactly the maximal prefix with one tick left and returns it in order |
| Sequencing.Sequencer.DecrementLiveNotes | src/Redzen.Midi/Sequencing/Sequencer.cs:138-142 | the second loop takes exactly one tick off every remaining live note |
| Sequencing.Sequencer.RemoveExpired | src/Redzen.Midi/Sequencing/Sequencer.cs:127-142 | the expired prefix is removed and returned, and the rest decremented |
| Sequencing.Sequencer.SendNoteOffs | src/Redzen.Midi/Sequencing/Sequencer.cs:145-150 | one note-off per unlinked note, in order, appended to what was sent |
| Sequencing.Sequencer.HandleNoteOffMessages | src/Redzen.Midi/Sequencing/Sequencer.cs:124-151 | the live list becomes `Remaining` of the old one, the note-offs of `Expired` are sent in order, and the list's invariant holds for the next tick |
| Sequencing.Sequencer.FindInsertPoint | src/Redzen.Midi/Sequencing/Sequencer.cs:184-187 | the tail scan stops at `InsertPoint` of the live list |
| Sequencing.Sequencer.RegisterLiveNote | src/Redzen.Midi/Sequencing/Sequencer.cs:178-195 | the new live note, with the note's duration left, is linked in at `InsertPoint`: the list becomes `Insert` of the old one and grows by exactly that note |
| Sequencing.Sequencer.HandleSequenceNoteOns | src/Redzen.Midi/Sequencing/Sequencer.cs:160-176 | a disabled sequence plays nothing; an enabled one sends a note-on for each note of its current slot, in order, and registers each as live |
| Sequencing.Sequencer.HandleNoteOnMessages | src/Redzen.Midi/Sequencing/Sequencer.cs:153-158 | the sequences are visited in list order: the messages sent and the notes registered are those of `Cues` of the list |
| Sequencing.Sequencer.AdvanceCursors | src/Redzen.Midi/Sequencing/Sequencer.cs:110-115 | every cursor, enabled or not, steps by one and wraps at its length; the flags are kept |
| Sequencing.Sequencer.PlayNotes | src/Redzen.Midi/Sequencing/Sequencer.cs:103-107 | the note-off pass comes before the note-on pass: the messages are the note-offs of the expired prefix followed by the note-ons of the list |
| Sequencing.Sequencer.TimingClock | src/Redzen.Midi/Sequencing/Sequencer.cs:95-118 | a tick while stopped changes nothing; a running tick sends the off messages, then the on messages, advances every cursor, counts the tick on the 32-bit counter, keeps a live note exactly when the tick is not its off tick, and keeps the sequences in sync |
| Sequencing.Sequencer.Tick | src/Redzen.Midi/Sequencing/Sequencer.cs:101-117 | the running body of the tick handler, with the same effects and the invariant kept |
| Sequencing.Sequencer.FinishTick | src/Redzen.Midi/Sequencing/Sequencer.cs:110-116 | the cursor step followed by the tick count, which together keep the sequences in sync |
| Sequencing.Sequencer.CountTick | src/Redzen.Midi/Sequencing/Sequencer.cs:116 | `_tickCount++` wraps like the running-tick count it tracks |
| Generation.SequenceGenerator.constructor | src/Redzen.Midi/Sequencing/SequenceGenerator.cs:17-19 | a new generator has the default seeding |
| Generation.SequenceGenerator.WithSeed | src/Redzen.Midi/Sequencing/SequenceGenerator.cs:25-27 | the seeded constructor ignores its seed: the seeding is the default one |
| Generation.SequenceGenerator.SetSeed | src/Redzen.Midi/Sequencing/SequenceGenerator.cs:37-40 | reseeding records the given 64-bit seed |
| Generation.SequenceGenerator.CreateRandom | src/Redzen.Midi/Sequencing/SequenceGenerator.cs:51-62 | a fresh, disabled sequence on `chan` of `lengthInBeats * 24` slots (failing exactly as `CreateLengthInBeats` does) whose slot i is `RandomSlot`: one hit at each multiple of the quantization whose draw is below the probability, nothing elsewhere |
| Generation.StepSlots | src/Redzen.Midi/Sequencing/SequenceGenerator.cs:54 | the loop's k-th turn visits slot k * q and skips the slots up to the next multiple |
| Generation.HitsArePlayable | src/Redzen.Midi/Sequencing/SequenceGenerator.cs:59 | the note the generator adds, `SequenceNote(noteId, 80, 4)`, is playable for any MIDI note id |
| Generation.RandomSlotShape | src/Redzen.Midi/Sequencing/SequenceGenerator.cs:54-60 | each slot gets at most one note, exactly when it is on the quantization grid and its draw is below the probability, and that note is `SequenceNote(noteId, 80, 4)` |
| Clocks.RoundHalfEven | src/Redzen.Midi/Sequencing/InternalMidiClock.cs:31 | `Math.Round` of a quotient: the result is within half a divisor of the exact quotient, and on a tie it is even |
| Clocks.Period | src/Redzen.Midi/Sequencing/InternalMidiClock.cs:31 | the timer period is 60000 ms divided by the clocks per minute, rounded to the nearest integer |
| Clocks.PeriodBounds | src/Redzen.Midi/Sequencing/InternalMidiClock.cs:45-50 | for every tempo the setter can store (1..360) the product does not wrap and the period is 7 to 2500 ms |
| Clocks.RetimeKeepsInStep | src/Redzen.Midi/Sequencing/InternalMidiClock.cs:96-103 | with the corrected retiming the new tempo is adopted and the period is always that tempo's period |
| Clocks.RetimeRunInStep | src/Redzen.Midi/Sequencing/InternalMidiClock.cs:96-103 | over any run of ticks and tempo changes, the corrected retiming leaves the clock at the last tempo set with that tempo's period |
| Clocks.TempoChangeLags | src/Redzen.Midi/Sequencing/InternalMidiClock.cs:99-102 | as written, a clock at 120 bpm (21 ms) set to 60 bpm adopts 60 bpm but keeps the 21 ms period, where 60 bpm needs 42 ms |
| Clocks.InternalMidiClock.constructor | src/Redzen.Midi/Sequencing/InternalMidiClock.cs:25-33 | both tempos are the argument, unclamped; the period is that tempo's; the timer is created stopped at that period |
| Clocks.InternalMidiClock.SetBeatsPerMin | src/Redzen.Midi/Sequencing/InternalMidiClock.cs:42-51 | the getter then returns the value clamped to 1..360; the tempo in effect, the period and the timer are untouched |
| Clocks.InternalMidiClock.BeatsPerMin | src/Redzen.Midi/Sequencing/InternalMidiClock.cs:44-46 | the getter reads the pending tempo `_newbpm`, which the next tick adopts, not the tempo the timer runs at |
| Clocks.InternalMidiClock.Start | src/Redzen.Midi/Sequencing/InternalMidiClock.cs:60-63 | the timer fires now and then every period; on a disposed timer it throws `ObjectDisposedException` and changes nothing |
| Clocks.InternalMidiClock.Stop | src/Redzen.Midi/Sequencing/InternalMidiClock.cs:68-71 | the timer stops firing; on a disposed timer it throws and changes nothing |
| Clocks.InternalMidiClock.Dispose | src/Redzen.Midi/Sequencing/InternalMidiClock.cs:76-80 | the clock is disposing and its timer disposed; the tempos and period are kept |
| Clocks.InternalMidiClock.OnTick | src/Redzen.Midi/Sequencing/InternalMidiClock.cs:86-106 | a disposing clock does nothing; otherwise a pending tempo is adopted with the timer retimed to the old tempo's period (`RetimeAsWritten`), pending and current tempo are equal afterwards, and exactly one timing-clock event is raised |
| Clocks.ExternalMidiClock.constructor | src/Redzen.Midi/Sequencing/ExternalMidiClock.cs:30-42 | a new clock is neither running nor disposing, has its handler registered, and has opened and started the device only if it owns it |
| Clocks.ExternalMidiClock.Start | src/Redzen.Midi/Sequencing/ExternalMidiClock.cs:51-54 | forwarding on; the subscription and the device untouched |
| Clocks.ExternalMidiClock.Stop | src/Redzen.Midi/Sequencing/ExternalMidiClock.cs:59-62 | forwarding off; the subscription and the device untouched |
| Clocks.ExternalMidiClock.Dispose | src/Redzen.Midi/Sequencing/ExternalMidiClock.cs:67-77 | disposing for good, the handler unregistered, and the device stopped and disposed exactly when the clock owns it |
| Clocks.ExternalMidiClock.RealTime | src/Redzen.Midi/Sequencing/ExternalMidiClock.cs:83-95 | exactly one timing-clock event when not disposing, running and the message is `TimingClock`, none otherwise; no message changes the running flag |
| DrummerUtils.Range | src/Redzen.MidiDrummer/Utils.cs:51-53 | holds exactly the integers from `a` to `b` |
| DrummerUtils.AddRange | src/Redzen.MidiDrummer/Utils.cs:51-53 | the range loop adds exactly the integers from `a` to `b` to the set, and nothing else |
| DrummerUtils.ParseSequenceDescriptor | src/Redzen.MidiDrummer/Utils.cs:23-71 | the result is the union of what each lower-cased, comma-separated field selects (an integer, or an ascending range `a-b`), cut to `0..seqCount-1`; every index in it is in range |
| DrummerUtils.AddFieldIndexes | src/Redzen.MidiDrummer/Utils.cs:30-53 | one field adds its integer, else every integer of a well-formed ascending range, else nothing |
| DrummerUtils.RemoveOutOfRange | src/Redzen.MidiDrummer/Utils.cs:56-68 | collecting the out-of-range indexes and then removing them leaves exactly the indexes in `0..seqCount-1` |
| DrummerUtils.SortedElements | src/Redzen.MidiDrummer/Utils.cs:18-19 | `ToArray` then `Array.Sort` gives the set's elements in strictly ascending order |
| DrummerUtils.ParseSequenceDescriptorAsArray | src/Redzen.MidiDrummer/Utils.cs:12-21 | the array is strictly ascending, holds exactly the selected indexes, and each is in `0..seqCount-1` |
| DrummerUtils.ParsePatternNotesDescriptor | src/Redzen.MidiDrummer/Utils.cs:73-101 | the result is the union over the fields of the note id a field spells when it is in 0..127, or else the notes of the note set it names |
| DrummerUtils.AddFieldNotes | src/Redzen.MidiDrummer/Utils.cs:80-96 | one field adds its in-range note id, nothing for an out-of-range id, else the named note set's notes, else nothing |
| DrummerUtils.ToString | src/Redzen.MidiDrummer/Utils.cs:103-117 | the ids in ascending order in decimal, separated by single spaces; empty for no ids |
| DrummerUtils.Ascending | src/Redzen.MidiDrummer/Utils.cs:18-19 | the sorted order of a set: strictly ascending, the same elements, the same number of them |
| DrummerUtils.DescriptorUnion | src/Redzen.MidiDrummer/Utils.cs:27-28 | joining two descriptors with a comma selects the union of what each selects |
| DrummerUtils.OneField | src/Redzen.MidiDrummer/Utils.cs:27-68 | a descriptor with no comma and no upper-case letter selects its one field's indexes that are in range |
| DrummerUtils.SingleField | src/Redzen.MidiDrummer/Utils.cs:33-37 | the decimal form of a 32-bit integer, as a field, stands for that integer alone |
| DrummerUtils.SingleIndex | src/Redzen.MidiDrummer/Utils.cs:23-71 | the decimal form of an in-range index selects that index alone |
| DrummerUtils.RangeField | src/Redzen.MidiDrummer/Utils.cs:39-53 | the field "a-b" for non-negative `a <= b` stands for every integer from `a` to `b` |
| DrummerUtils.RangeSplits | src/Redzen.MidiDrummer/Utils.cs:39-40 | splitting "x-y" at '-' gives back the two ends when neither holds a '-' |
| DrummerUtils.RangeIsNoInteger | src/Redzen.MidiDrummer/Utils.cs:33-39 | a range field does not parse as a single integer, so it reaches the range branch |
| DrummerUtils.RangeIndexes | src/Redzen.MidiDrummer/Utils.cs:23-71 | the descriptor "a-b" selects the in-range integers from `a` to `b` |
| DrummerUtils.PatternNotesInRange | src/Redzen.MidiDrummer/Utils.cs:73-101 | every note a pattern-note descriptor yields is a MIDI note id (0..127) when the named note sets hold only such ids |
| DrummerUtils.FieldNotesInRange | src/Redzen.MidiDrummer/Utils.cs:83-96 | each field's notes are in 0..127 under the same condition |
| DrummerUtils.SpacedParses | src/Redzen.MidiDrummer/Utils.cs:103-117 | the formatted set is empty exactly for no ids, splits at its spaces into the ascending ids' decimal forms, and each of them parses back to its id |
| DrummerUtils.RangeLoopSpinsAtMax | src/Redzen.MidiDrummer/Utils.cs:51-53 | with the upper end `int.MaxValue` the test `i <= idx2` never fails, because the 32-bit counter wraps to `int.MinValue`; over an unbounded set the loop has not ended after any number of turns |
| DrummerUtils.MaxFieldWraps | src/Redzen.MidiDrummer/Utils.cs:51-53 | for the field "2147483647-2147483647" the loop adds `int.MaxValue`, wraps its counter to `int.MinValue` and carries on, never ending |
| DrummerUtils.TopRangeField | src/Redzen.MidiDrummer/Utils.cs:39-53 | the field "b-b" stands for `b` alone, so "2147483647-2147483647" means just `int.MaxValue` |
| DrummerUtils.RangeLoopBelowMax | src/Redzen.MidiDrummer/Utils.cs:51-53 | with the upper end below `int.MaxValue`, the loop as written ends after `b - a + 1` turns, having added the range |
| Text.Lower | src/Redzen.MidiDrummer/Utils.cs:27 | `ToLowerInvariant` keeps the length, leaves no upper-case ASCII letter, and changes exactly the upper-case letters |
| Text.LowerKeeps | src/Redzen.MidiDrummer/Utils.cs:27 | a string without upper-case letters is its own lower case |
| Text.TrimShape | src/Redzen.MidiDrummer/Utils.cs:30 | the trim neither starts nor ends with a trimmed character, and is empty exactly when every character is trimmed |
| Text.TrimKeeps | src/Redzen.MidiDrummer/Utils.cs:30 | a string with no trimmed character at either end is its own trim |
| Text.Split | src/Redzen.MidiDrummer/Utils.cs:27 | `Split` gives at least one field, no field holds the separator, and joining the fields gives the string back |
| Text.SplitJoin | src/Redzen.MidiDrummer/Utils.cs:39 | splitting a join of separator-free fields gives the fields back |
| Text.TryParseInt | src/Redzen.MidiDrummer/Utils.cs:33 | `int.TryParse` succeeds only with a 32-bit value |
| Text.ParsedHasDigit | src/Redzen.MidiDrummer/Utils.cs:33 | only a string holding a decimal digit parses |
| Text.NatToString | src/Redzen.MidiDrummer/Utils.cs:110 | the decimal digits of `n`, without a leading zero, whose value is `n` |
| Text.IntToString | src/Redzen.MidiDrummer/Utils.cs:110 | `int.ToString()` is digits, with a leading '-' only for a negative number |
| Text.IntToStringOmits | src/Redzen.MidiDrummer/Utils.cs:114 | no space and no other non-digit (bar a negative number's '-') occurs in a decimal form |
| Text.IntToStringParses | src/Redzen.MidiDrummer/Utils.cs:110-114 | formatting a 32-bit integer and parsing it back gives the integer |
| Common.Wrap32 | src/Redzen.Midi/Sequencing/Sequencer.cs:116 | the unchecked 32-bit result is a 32-bit value congruent to the exact one modulo 2^32, and equal to it when that fits |
| Common.CsRem | src/Redzen.Midi/Sequencing/Sequencer.cs:87 | C#'s `%` leaves a remainder with the dividend's sign and below the divisor in size, Dafny's `%` for a non-negative dividend |
| Common.Clamp | src/Redzen.MidiDrummer/DrummerConsole.cs:190-192 | the result lies in `lo..hi`, is `v` when `v` does, and is the nearer end otherwise |
| Common.Wrap32Increment | src/Redzen.Midi/Sequencing/Sequencer.cs:116 | incrementing a wrapped counter wraps like incrementing the unwrapped one |
| Drummer.LetterPrefixLength | src/Redzen.MidiDrummer/DrummerConsole.cs:584-593 | the length of the longest prefix of letters a to z: every character before it is a letter and the one at it is not |
| Drummer.SplitCommandString | src/Redzen.MidiDrummer/DrummerConsole.cs:580-605 | the scan returns exactly the canonical line's one or two command parts |
| Drummer.CommandPartsShape | src/Redzen.MidiDrummer/DrummerConsole.cs:580-605 | a line gives one part exactly when its trimmed, lower-cased form is all letters, and then that form; otherwise the letter prefix, followed in the line by a non-letter, and an argument with no '=' or ' ' at either end |
| Drummer.BlankIsOnePart | src/Redzen.MidiDrummer/DrummerConsole.cs:294-301 | a blank line splits into one empty part, so the two-part test rejects it too |
| Drummer.CommandLine | src/Redzen.MidiDrummer/DrummerConsole.cs:580-605 | `cmd=n` and `cmd n` split into the command and the decimal form of `n`, which parses back to `n` |
| Drummer.SplitsAt | src/Redzen.MidiDrummer/DrummerConsole.cs:580-605 | a letter command, one separator and a trimmed, lower-case argument split back into the command and the argument |
| Drummer.NumericCommand | src/Redzen.MidiDrummer/DrummerConsole.cs:322-388 | a numeric command keeps the settings in range, counts as handled exactly for a known command other than an out-of-range `lc`, and changes nothing when it is not handled |
| Drummer.IsInRange | src/Redzen.MidiDrummer/DrummerConsole.cs:607-610 | the half-open range: `v` is in range exactly when `min <= v < max` |
| Drummer.NumericCommandSets | src/Redzen.MidiDrummer/DrummerConsole.cs:330-385 | an in-range value becomes its command's setting: channel `val` as index `val - 1`, beats as clock ticks, probability as `1/val` |
| Drummer.NumericCommandKeeps | src/Redzen.MidiDrummer/DrummerConsole.cs:330-385 | a setting changes only through its own command with a value in that command's range |
| Drummer.Inverse | src/Redzen.MidiDrummer/DrummerConsole.cs:382 | `1.0 / val` is a probability above 0 and at most 1, whose product with `val` is 1 |
| Drummer.TempoStep | src/Redzen.MidiDrummer/DrummerConsole.cs:190-191 | the new tempo lies in 1..360, moves by one inside the range and stops at either end |
| Drummer.DropRemoveAt | src/Redzen.MidiDrummer/DrummerConsole.cs:407-411 | with only higher indices removed, the element at `j` is still at `j`, and `RemoveAt(j)` then removes index `j` of the original list as well |
| Drummer.DropExactly | src/Redzen.MidiDrummer/DrummerConsole.cs:407-411 | of distinct sequences, exactly those at the removed indices are gone and no new ones appear |
| Drummer.RemoveEach | src/Redzen.MidiDrummer/DrummerConsole.cs:409-411 | removing from the last ascending index down leaves the list without exactly the listed indices, in order; the sequencer's other state is unchanged |
| Drummer.EnableAt | src/Redzen.MidiDrummer/DrummerConsole.cs:419-421 | each listed sequence's flag becomes `isEnabled`, every other flag and every cursor is kept |
| Drummer.EnableExactly | src/Redzen.MidiDrummer/DrummerConsole.cs:428-430 | every sequence's flag becomes whether its index is in the set; cursors are kept |
| Drummer.SelectBpm | src/Redzen.MidiDrummer/DrummerConsole.cs:479-490 | with the guard the message describes, a tempo is accepted exactly when the line parses to 1..300, and then gives a positive clock period of 7 to 2500 ms |
| Drummer.BpmGuardAdmitsNonPositive | src/Redzen.MidiDrummer/DrummerConsole.cs:484 | the guard as written accepts "0" and "-1", whose clocks-per-minute products are 0 and -24 |
| Drummer.BpmGuardAdmits | src/Redzen.MidiDrummer/DrummerConsole.cs:479-490 | the intended guard accepts the decimal form of `n` exactly when `n` is in 1..300 |
| Drummer.DrummerConsole.constructor | src/Redzen.MidiDrummer/DrummerConsole.cs:18-45 | the note sets keyed by lower-cased name, the initial settings (channel 10, 16 beats, quantization 12, probability 0.4, note 60) and no pattern notes |
| Drummer.DrummerConsole.HandleCmdTempo | src/Redzen.MidiDrummer/DrummerConsole.cs:181-194 | with the internal clock the tempo takes one step, with only the tempo changed; with an external clock nothing changes |
| Drummer.DrummerConsole.HandleCmd | src/Redzen.MidiDrummer/DrummerConsole.cs:292-320 | a blank line or one not of two parts is not handled and changes nothing; otherwise the command has its handler's effect; the console stays valid |
| Drummer.DrummerConsole.Dispatch | src/Redzen.MidiDrummer/DrummerConsole.cs:303-318 | a numeric command changes only the settings, a non-numeric one has its effect, an unknown one is not handled and changes nothing |
| Drummer.DrummerConsole.HandleCmdNumericState | src/Redzen.MidiDrummer/DrummerConsole.cs:322-388 | an argument that is no integer is not handled and changes nothing; otherwise the settings become `NumericCommand`'s |
| Drummer.DrummerConsole.HandleCmdNonNumericState | src/Redzen.MidiDrummer/DrummerConsole.cs:390-436 | `ns`, `d`, `m`, `u` and `o` have their effects and are handled; any other command is not and changes nothing |
| Drummer.DrummerConsole.AssignPatternNotes | src/Redzen.MidiDrummer/DrummerConsole.cs:394-405 | the pattern notes become the parsed notes, handled, exactly when there are some; otherwise nothing changes |
| Drummer.DrummerConsole.DeleteSequences | src/Redzen.MidiDrummer/DrummerConsole.cs:406-413 | the described sequences are removed and the others kept in order; nothing else changes |
| Drummer.DrummerConsole.SetEnabled | src/Redzen.MidiDrummer/DrummerConsole.cs:414-424 | the described sequences are muted (`m`) or unmuted (`u`), the others keep their flags, and no cursor moves |
| Drummer.DrummerConsole.Solo | src/Redzen.MidiDrummer/DrummerConsole.cs:425-433 | exactly the described sequences are enabled and no cursor moves |

## Left out

- Device plumbing is not part of this model: input and output devices, their enumeration, callbacks and worker thread. The output device is the sequencer's ghost `sent` log. The clocks' device and timer are the calls made on them.
- Concurrency is not modelled. The sequencer's lock, the unlocked `_isRunning` read, `Interlocked` and the timer thread become sequential method calls. The console's unlocked edits of `SequenceList` become the same.
- The `MidiClock` event multicast is not modelled. A tick is a call to `Sequencer.TimingClock`, and raised events are a ghost count.
- Floating point is not modelled:
  - The period `Math.Round(1000.0 / ((bpm * 24) / 60.0))` is computed on exact rationals, as `60000 / (bpm * 24)` rounded half to even. The error of the double-precision division is not modelled.
  - The probability `_prob` is an exact `real`.
  - The generator's `NextDouble() < probability` is the oracle `below`.
- The console UI is not modelled: `MainControlLoop`, `HandleCmd(ConsoleKeyInfo)`, the clock and device prompts (except the BPM guard), the help text, the `HandleCmd_Print*` methods, `ToString(Sequence, int)`, and every `Console.WriteLine`.
- `HandleCmd_AddSequence` and `HandleCmd_AddPattern` are not modelled. They need the random source and the pattern bank (`PatternBank`, `PatternSequence`).
- The reflection-built note-set tables (`NoteSetUtils`) and the constant enums are not modelled. The console's note sets are a constructor parameter.
- The `Instrument` enum and its `Validate` are not part of this model. An instrument is taken to be valid exactly in 0..127.
- Text: a `char` is a Unicode scalar value. A character outside the Basic Multilingual Plane is one `char` here and two UTF-16 code units in C#, and a lone surrogate cannot be represented.
- DrummerUtils.RangeLoopAsWritten: the set it builds is unbounded. The capacity limit of .NET's `HashSet<int>`, at which the source's endless range loop throws, is not modelled.
- Text.Lower: folds only the ASCII letters `A`-`Z`. `ToLowerInvariant`'s other case mappings are not modelled.
- Text.TryParseInt: accepts only optional ASCII white space, a sign and decimal digits. Trailing NUL characters, other number styles and the current culture's signs are not modelled.
- DrummerUtils.SortedElements: models `HashSet.ToArray` and `Array.Sort` by picking minima. The set's enumeration order is not modelled.
- The bodies of the source's longer loops are separate methods (`AddFieldIndexes`, `AddFieldNotes`, `RemoveOutOfRange`, `UnlinkExpired`, `DecrementLiveNotes`, `HandleSequenceNoteOns`, `RemoveEach`, `EnableAt`, `EnableExactly`). This keeps each proof small; the statements run in the same order.
- The output device's `Send` of a note message is a ghost append to `sent`.
- Sequences.SequenceNote: the datatype validates nothing, like the source. Instead, the sequencer's invariant requires every note in a scheduled sequence to be playable: note and velocity 0..127, duration at least 1. `LiveNotes.StuckHeadBlocksExpiry` shows what a duration below 1 would do.
- Sequencing.Sequencer.AddSequence: requires the sequence to be ready (a valid channel, playable notes) and not already in the list. The source accepts any sequence.
- Sequencing.Sequencer.AddSequence: places the cursor with the corrected `SyncPosition`. The source's truncating remainder is `SyncPositionAsWritten`, which differs once the tick count has wrapped negative (`SyncPositionAfterWrap`; see Findings).
- Sequencing.Sequencer.AddSequence: keeps the sequences in sync only while the tick count is at most `int.MaxValue`. Once the 32-bit count has wrapped, even the corrected position is in step with the running ticks only for lengths dividing 2^32 (`SyncPositionAfterWrap`).
- Sequencing.Sequencer.Start: models the source's `Start`, which keeps the tick count and so can leave the sequences out of sync (see Findings). The intended behaviour is `Restart`; nothing else in the model calls either.
- Sequencing.Sequencer.Tick: requires the sequencer invariant. In particular, every cursor is in `0..Length-1`, though the source's `Position` setter accepts any value.
- Sequences.Sequence.AddNote: requires an in-range slot. Out of range, the source throws `IndexOutOfRangeException`.
- Sequences.Sequence.constructor: requires a non-negative length. `CreateLengthInMidiClockTicks` and `CreateLengthInBeats` return the `OverflowException` that a negative array size throws.
- Generation.SequenceGenerator.CreateRandom: requires `quantizeTicks >= 1`. With 0 the source's loop never ends; with a negative step the index goes below 0. Its slot counter is unbounded. The source's `i += quantizeTicks` is a 32-bit add, which on a grid longer than `int.MaxValue - quantizeTicks` slots would wrap negative, so the next `AddNote` would throw. The model instead leaves the loop. This needs a grid of about 2^31 slots.
- Generation.SequenceGenerator.SetSeed: the seed is a `ulong`, so it is required to be in 0..2^64-1.
- Clocks.InternalMidiClock.constructor: requires `bpm * 24` to be positive. The source divides by it in floating point, so with 0 or less the period is not a timer period.
- Clocks.InternalMidiClock.OnTick: keeps the source's retiming from the tempo being replaced (`RetimeAsWritten`), so that the clock's timer period is the one the source sets. The intended retiming is stated and proved in `Retime`; see Findings.
- Drummer.DrummerConsole.constructor: requires distinct lower-cased note-set names. The source's `Dictionary.Add` throws on a duplicate. It also requires every note of every note set to lie in 0..127. The source builds its note sets from enum tables whose members are all MIDI note ids (`Percussion` runs from 35 to 81), so this holds of every input it receives.
- Drummer.DrummerConsole.HandleCmdTempo: models only the internal clock's tempo. With an external clock the source prints a message and returns; the model does nothing.
- The `p` command's probability is an exact `1 / val`. The double division is not modelled.

## Findings

| source | as written | input that shows it | evidently intended | confidence | as-written member | corrected member |
|---|---|---|---|---|---|---|
| src/Redzen.Midi/Sequencing/Sequencer.cs:87 | `seq.Position = _tickCount % seq.Length` with the 32-bit `_tickCount` incremented unchecked at line 116 | after 2^31 running ticks `_tickCount` is -2^31; adding a sequence of length 3 then gives `Position == -2`, so the next tick's slot lookup throws | the tick count modulo the length, a position in `0..Length-1` | not executed | Sequencing.SyncPositionAfterWrap | Sequencing.SyncPosition |
| src/Redzen.MidiDrummer/DrummerConsole.cs:484 | `if(val < 0 && val > 300)` rejects a BPM | "0" and "-1" are accepted, giving the clock a tempo whose clocks-per-minute product is 0 or -24 | reject values outside [1, 300], as the message says | not executed | Drummer.BpmGuardAdmitsNonPositive | Drummer.SelectBpm |
| src/Redzen.MidiDrummer/Utils.cs:51 | `for(int i=idx; i<=idx2; i++)` with a 32-bit counter | the descriptor field "2147483647-2147483647": after adding `int.MaxValue`, `i++` wraps `i` to `int.MinValue` and `i <= idx2` still holds, so the loop goes on adding from `int.MinValue` upward and cannot end normally; on .NET it stops only when the `HashSet<int>` runs out of capacity or memory and throws | add every integer from `idx` to `idx2` and stop | not executed | DrummerUtils.MaxFieldWraps | DrummerUtils.AddRange |
| src/Redzen.Midi/Sequencing/InternalMidiClock.cs:99 | the new period is computed from `_bpm` before `_bpm = _newbpm` | changing 120 BPM to 60 BPM leaves the timer period at 21 ms, where 60 BPM needs 42 ms | compute the period from the new tempo | not executed | Clocks.TempoChangeLags | Clocks.RetimeRunInStep |
| src/Redzen.Midi/Sequencing/Sequencer.cs:55-61 | `Start` sets every `Position` to 0 but leaves `_tickCount` as it is, while `AddSequence` (line 87) places new sequences by `_tickCount` | 5 running ticks with one 8-slot sequence, `Stop`, `Start`, then `AddSequence` of another 8-slot sequence: the first is at 0, the second at 5, and they stay 5 slots apart | `Start` also resets `_tickCount` to 0, so that later sequences are added in sync with the existing ones | not executed | Sequencing.Sequencer.Start | Sequencing.Sequencer.Restart |
