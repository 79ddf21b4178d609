/**
 * `SequenceGenerator`: fills a fresh sequence with random hits at every
 * quantization step. The random source is not modelled; the reseeding it
 * receives is, and each draw's comparison with the probability is an oracle
 * `below(k)`: "the k-th draw of `CreateRandom` is below the probability".
 */
module Generation {
  import opened Common
  import opened Midi
  import opened Sequences

  /** The note every hit adds. */
  function Hit(noteId: int): SequenceNote {
    SequenceNote(noteId, 80, 4)
  }

  /**
   * The content of slot `i` after `CreateRandom`: one hit when `i` is a
   * multiple of the quantization and that step's draw is below the
   * probability, nothing otherwise.
   */
  function RandomSlot(i: int, quantizeTicks: int, below: nat -> bool, noteId: int): seq<SequenceNote>
    requires 0 <= i && quantizeTicks >= 1
  {
    if i % quantizeTicks == 0 && below(i / quantizeTicks) then [Hit(noteId)] else []
  }

  class SequenceGenerator {
    /** The seed last passed to `SetSeed`; `None` while the default seeding stands. */
    var seed: Option<int>

    /** `SequenceGenerator()`: a default-seeded random source. */
    constructor ()
      ensures seed == None
    {
      seed := None;
    }

    /** `SequenceGenerator(int seed)`: the seed argument is ignored, as in the parameterless constructor. */
    constructor WithSeed(ignoredSeed: int)
      ensures seed == None
    {
      seed := None;
    }

    /** `SetSeed`: reinitialises the random source. */
    method SetSeed(s: int)
      requires 0 <= s < 0x1_0000_0000_0000_0000
      modifies this
      ensures seed == Some(s)
    {
      seed := Some(s);
    }

    /**
     * `CreateRandom`: a sequence of `lengthInBeats` beats on `chan` whose
     * slots 0, q, 2q, ... each get one `SequenceNote(noteId, 80, 4)` when that
     * step's draw is below the probability, and every other slot stays empty.
     */
    method CreateRandom(chan: int, lengthInBeats: int, below: nat -> bool, quantizeTicks: int, noteId: int)
      returns (r: Result<Sequence>)
      requires quantizeTicks >= 1
      ensures r.Failure? <==> BeatsToTicks(lengthInBeats) < 0
      ensures r.Failure? ==> r.error == Overflow
      ensures r.Success? ==> fresh(r.value) && fresh(r.value.slots)
      ensures r.Success? ==> r.value.channel == chan && r.value.Length() == BeatsToTicks(lengthInBeats)
      ensures r.Success? ==> r.value.position == 0 && !r.value.isEnabled
      ensures r.Success? ==> forall i :: 0 <= i < r.value.Length() ==>
                r.value.slots[i] == RandomSlot(i, quantizeTicks, below, noteId)
    {
      r := CreateLengthInBeats(chan, lengthInBeats);
      if r.Failure? {
        return;
      }
      var s := r.value;
      var i, step := 0, 0;
      while i < s.Length()
        invariant 0 <= i && i == step * quantizeTicks
        invariant s.position == 0 && !s.isEnabled
        invariant forall j :: 0 <= j < i && j < s.Length() ==> s.slots[j] == RandomSlot(j, quantizeTicks, below, noteId)
        invariant forall j :: i <= j < s.Length() ==> s.slots[j] == []
        decreases s.Length() - i
      {
        StepSlots(step, quantizeTicks, below, noteId);
        if below(step) {
          s.AddNote(Hit(noteId), i);
        }
        i, step := i + quantizeTicks, step + 1;
      }
    }
  }

  /**
   * Slot `step * q` is the one the loop fills on its `step`-th turn, and the
   * slots between it and the next multiple of `q` stay empty.
   */
  lemma StepSlots(step: nat, q: int, below: nat -> bool, noteId: int)
    requires q >= 1
    ensures RandomSlot(step * q, q, below, noteId) == (if below(step) then [Hit(noteId)] else [])
    ensures forall j :: step * q < j < step * q + q ==> RandomSlot(j, q, below, noteId) == []
  {
    DivModUnique(step * q, q, step, 0);
    forall j | step * q < j < step * q + q
      ensures RandomSlot(j, q, below, noteId) == []
    {
      DivModUnique(j, q, step, j - step * q);
    }
  }

  /** Every note the generator places is playable, whenever the note id is a MIDI note. */
  lemma HitsArePlayable(noteId: int)
    requires IsInMidiRange(noteId)
    ensures Playable(Hit(noteId))
  {
  }

  /** Each slot holds at most one note, and only slots on the quantization grid hold any. */
  lemma RandomSlotShape(i: int, quantizeTicks: int, below: nat -> bool, noteId: int)
    requires 0 <= i && quantizeTicks >= 1
    ensures |RandomSlot(i, quantizeTicks, below, noteId)| <= 1
    ensures RandomSlot(i, quantizeTicks, below, noteId) != [] <==>
              i % quantizeTicks == 0 && below(i / quantizeTicks)
    ensures RandomSlot(i, quantizeTicks, below, noteId) != [] ==>
              RandomSlot(i, quantizeTicks, below, noteId) == [SequenceNote(noteId, 80, 4)]
  {
  }
}
