/**
 * `SequenceNote` and `Sequence`: a fixed-length grid of time slots (one per
 * MIDI clock tick), each holding the notes to switch on at that tick, with a
 * play cursor and an enable flag.
 *
 * A slot that was never written holds a null list in the source; here it
 * holds the empty sequence. `AddNote` never leaves a written slot empty, so
 * the two are told apart by emptiness alone.
 */
module Sequences {
  import opened Common
  import opened Midi

  /**
   * `SequenceNote`: an immutable note template. The constructor checks
   * nothing: any note id, velocity and duration is accepted.
   */
  datatype SequenceNote = SequenceNote(noteId: int, velocity: int, durationTicks: int)

  /**
   * What the sequencer needs of a note to play it without an exception and to
   * switch it off again: a MIDI note id and velocity (checked by the
   * `NoteOnMessage` it sends) and at least one tick of duration (otherwise the
   * live note blocks the note-off scan).
   */
  predicate Playable(n: SequenceNote) {
    IsInMidiRange(n.noteId) && 0 <= n.velocity <= 127 && n.durationTicks >= 1
  }

  predicate AllPlayable(notes: seq<SequenceNote>) {
    forall n :: n in notes ==> Playable(n)
  }

  class Sequence {
    /** `Channel`, fixed at construction and not validated. */
    const channel: int
    /** `_noteSeq`: one list of notes per tick; its length is `Length`. */
    const slots: array<seq<SequenceNote>>
    /** `Position`: a public property with an unconstrained setter. */
    var position: int
    /** `IsEnabled`: false until set. */
    var isEnabled: bool

    function Length(): nat {
      slots.Length
    }

    /** The indexer `this[idx]`: the notes of one slot, empty if it was never written. */
    function At(idx: int): seq<SequenceNote>
      requires 0 <= idx < Length()
      reads slots
    {
      slots[idx]
    }

    /** Every slot empty. */
    predicate Blank()
      reads slots
    {
      forall i :: 0 <= i < slots.Length ==> slots[i] == []
    }

    /** A valid channel and playable notes in every slot. */
    predicate Ready()
      reads slots
    {
      ChannelIsValid(channel) && forall i :: 0 <= i < slots.Length ==> AllPlayable(slots[i])
    }

    /**
     * What the sequencer relies on to play this sequence on every tick: at
     * least one slot, a cursor inside the grid (the indexer is read at
     * `Position` on every tick, enabled or not), a valid channel and
     * playable notes.
     */
    predicate Schedulable()
      reads this, slots
    {
      Length() > 0 && 0 <= position < Length() && Ready()
    }

    /**
     * `new Sequence(chan, lengthInTicks)`. A negative length makes the array
     * allocation throw; the factories below model that case.
     */
    constructor (chan: int, lengthInTicks: int)
      requires lengthInTicks >= 0
      ensures channel == chan && Length() == lengthInTicks
      ensures position == 0 && !isEnabled
      ensures Blank()
      ensures fresh(slots)
    {
      channel := chan;
      slots := new seq<SequenceNote>[lengthInTicks](_ => []);
      position := 0;
      isEnabled := false;
    }

    /**
     * `AddNote`: appends the note to the list of slot `timeSlot` (creating
     * the list if the slot was empty). An index outside the grid throws.
     */
    method AddNote(note: SequenceNote, timeSlot: int)
      requires 0 <= timeSlot < Length()
      modifies slots
      ensures slots[timeSlot] == old(slots[timeSlot]) + [note]
      ensures forall i :: 0 <= i < slots.Length && i != timeSlot ==> slots[i] == old(slots[i])
      ensures unchanged(this)
    {
      slots[timeSlot] := slots[timeSlot] + [note];
    }
  }

  /** `CreateLengthInMidiClockTicks`: a sequence of `ticks` slots; a negative count throws. */
  method CreateLengthInMidiClockTicks(chan: int, ticks: int) returns (r: Result<Sequence>)
    ensures r.Failure? <==> ticks < 0
    ensures r.Failure? ==> r.error == Overflow
    ensures r.Success? ==> fresh(r.value) && fresh(r.value.slots) && r.value.channel == chan &&
                           r.value.Length() == ticks && r.value.position == 0 &&
                           !r.value.isEnabled && r.value.Blank()
  {
    if ticks < 0 {
      return Failure(Overflow);
    }
    var s := new Sequence(chan, ticks);
    return Success(s);
  }

  /** The slot count `beats * ClocksPerBeat` as the source's `int` product computes it. */
  function BeatsToTicks(beats: int): (ticks: int)
    ensures IsInt32(ticks)
    ensures 0 <= beats <= Int32Max / ClocksPerBeat ==> ticks == beats * ClocksPerBeat
    ensures beats < 0 && beats * ClocksPerBeat >= Int32Min ==> ticks < 0
  {
    Wrap32(beats * ClocksPerBeat)
  }

  /**
   * `CreateLengthInBeats`: `beats * 24` slots. The product is a 32-bit
   * integer, so it wraps for very large `beats`; a negative product throws.
   */
  method CreateLengthInBeats(chan: int, beats: int) returns (r: Result<Sequence>)
    ensures r.Failure? <==> BeatsToTicks(beats) < 0
    ensures r.Failure? ==> r.error == Overflow
    ensures r.Success? ==> fresh(r.value) && fresh(r.value.slots) && r.value.channel == chan &&
                           r.value.Length() == BeatsToTicks(beats) && r.value.position == 0 &&
                           !r.value.isEnabled && r.value.Blank()
  {
    r := CreateLengthInMidiClockTicks(chan, BeatsToTicks(beats));
  }

  /** A sequence of a whole number of beats that fits in 32 bits has 24 slots per beat. */
  lemma BeatsAreClockTicks(beats: int)
    requires 0 <= beats <= Int32Max / ClocksPerBeat
    ensures BeatsToTicks(beats) == 24 * beats
    ensures BeatsToTicks(beats) % ClocksPerBeat == 0
  {
  }

  /** A beat count whose product overflows 32 bits gives a wrapped length, not `beats * 24`. */
  lemma BeatsWrap()
    ensures BeatsToTicks(Int32Max / ClocksPerBeat + 1) < 0
    ensures BeatsToTicks(0x2000_0000) == 0
    ensures BeatsToTicks(-89478486) == 2147483632
    ensures BeatsToTicks(-0x2000_0000) == 0
  {
  }
}
