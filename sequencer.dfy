/**
 * `Sequencer`: plays a list of sequences against a MIDI clock.
 *
 * On every timing-clock tick while running it (1) switches off the live
 * notes whose time is up, (2) switches on the notes in the current slot of
 * every enabled sequence and registers them as live, (3) advances every
 * sequence's cursor, wrapping at its length, and (4) counts the tick.
 *
 * The output device is a ghost log `sent` of the messages handed to it. The
 * ghost `runTicks` counts running ticks; it is the index of the next tick,
 * and every live note's ghost `offTick` names the tick that will switch it
 * off (`LiveNotes.Due`).
 */
module Sequencing {
  import opened Common
  import opened Midi
  import opened Messages
  import opened Sequences
  import opened LiveNotes

  /** A note to switch on this tick, with the channel of the sequence it came from. */
  datatype Cue = Cue(channel: int, note: SequenceNote)

  /** The notes of one slot, on one channel, in slot order. */
  function CuesOf(chan: int, notes: seq<SequenceNote>): (r: seq<Cue>)
    ensures |r| == |notes|
    ensures forall k :: 0 <= k < |notes| ==> r[k] == Cue(chan, notes[k])
  {
    seq(|notes|, k requires 0 <= k < |notes| => Cue(chan, notes[k]))
  }

  /** What `HandleNoteOnMessages(seq)` plays: the current slot, if the sequence is enabled. */
  ghost function SlotCues(s: Sequence): seq<Cue>
    requires 0 <= s.position < s.Length()
    reads s, s.slots
  {
    if s.isEnabled then CuesOf(s.channel, s.slots[s.position]) else []
  }

  ghost predicate CursorsInRange(ss: seq<Sequence>)
    reads ss
  {
    forall s :: s in ss ==> 0 <= s.position < s.Length()
  }

  /** What the note-on pass plays: every sequence's cues, in list order. */
  ghost function Cues(ss: seq<Sequence>): seq<Cue>
    requires CursorsInRange(ss)
    reads ss, set s | s in ss :: s.slots
    decreases |ss|
  {
    if ss == [] then [] else Cues(ss[..|ss| - 1]) + SlotCues(ss[|ss| - 1])
  }

  /** Sequences whose fields and slots are untouched keep their cues and their readiness. */
  twostate lemma {:induction false} SequencesUnchanged(ss: seq<Sequence>)
    requires old(SequencesOk(ss))
    requires forall s :: s in ss ==> unchanged(s) && unchanged(s.slots)
    ensures SequencesOk(ss)
    ensures Cues(ss) == old(Cues(ss))
    decreases |ss|
  {
    if ss != [] {
      assert ss[|ss| - 1] in ss;
      SequencesUnchanged(ss[..|ss| - 1]);
    }
  }

  /** The cue lists of several sequences, one after the other. */
  function Flatten(parts: seq<seq<Cue>>): (r: seq<Cue>)
    decreases |parts|
  {
    if parts == [] then [] else Flatten(parts[..|parts| - 1]) + parts[|parts| - 1]
  }

  lemma FlattenSnoc(parts: seq<seq<Cue>>, i: int)
    requires 0 <= i < |parts|
    ensures Flatten(parts[..i + 1]) == Flatten(parts[..i]) + parts[i]
  {
    assert parts[..i + 1][..i] == parts[..i];
  }

  /** Every sequence's slot cues, in list order. */
  ghost function SlotCuesOf(ss: seq<Sequence>): (r: seq<seq<Cue>>)
    requires CursorsInRange(ss)
    reads ss, set s | s in ss :: s.slots
    ensures |r| == |ss|
    ensures forall j :: 0 <= j < |ss| ==> r[j] == SlotCues(ss[j])
    decreases |ss|
  {
    if ss == [] then [] else SlotCuesOf(ss[..|ss| - 1]) + [SlotCues(ss[|ss| - 1])]
  }

  /** `Cues` is the concatenation of every sequence's slot cues. */
  lemma {:induction false} CuesFlatten(ss: seq<Sequence>)
    requires CursorsInRange(ss)
    ensures Cues(ss) == Flatten(SlotCuesOf(ss))
    decreases |ss|
  {
    if ss != [] {
      var n := |ss| - 1;
      CuesFlatten(ss[..n]);
      assert SlotCuesOf(ss)[..n] == SlotCuesOf(ss[..n]);
    }
  }

  /** The note-on message sent for each cue. */
  function OnMessages(cues: seq<Cue>): (r: seq<ChannelMessage>)
    ensures |r| == |cues|
    ensures forall k :: 0 <= k < |cues| ==>
              r[k] == NoteOn(cues[k].channel, cues[k].note.noteId, cues[k].note.velocity)
  {
    seq(|cues|, k requires 0 <= k < |cues| => NoteOn(cues[k].channel, cues[k].note.noteId, cues[k].note.velocity))
  }

  /** The note-off message sent for each expired note: velocity 0. */
  function OffMessages(expired: seq<Live>): (r: seq<ChannelMessage>)
    ensures |r| == |expired|
    ensures forall k :: 0 <= k < |expired| ==> r[k] == NoteOff(expired[k].channel, expired[k].noteId, 0)
  {
    seq(|expired|, k requires 0 <= k < |expired| => NoteOff(expired[k].channel, expired[k].noteId, 0))
  }

  /** The live note a cue registers during tick `now`: its duration left, due off `duration` ticks later. */
  function LiveOf(c: Cue, now: int): Live {
    Live(c.note.noteId, c.channel, c.note.durationTicks, now + c.note.durationTicks)
  }

  /** `RegisterLiveNote` for every cue, in order. */
  function RegisterAll(s: seq<Live>, cues: seq<Cue>, now: int): seq<Live>
    decreases |cues|
  {
    if cues == [] then s else Insert(RegisterAll(s, cues[..|cues| - 1], now), LiveOf(cues[|cues| - 1], now))
  }

  /** The live notes a list of cues adds. */
  function LivesOf(cues: seq<Cue>, now: int): (r: seq<Live>)
    ensures |r| == |cues|
    ensures forall k :: 0 <= k < |cues| ==> r[k] == LiveOf(cues[k], now)
  {
    seq(|cues|, k requires 0 <= k < |cues| => LiveOf(cues[k], now))
  }

  /** A cue the sequencer can play: a note-on it can build and a live note that will expire. */
  predicate CueIsPlayable(c: Cue) {
    ChannelIsValid(c.channel) && Playable(c.note)
  }

  /** A live note whose note-off message can be built. */
  predicate Sound(x: Live) {
    ChannelIsValid(x.channel) && IsInMidiRange(x.noteId)
  }

  predicate AllSound(s: seq<Live>) {
    forall x :: x in s ==> Sound(x)
  }

  /** The cursor step of a tick: `if(seq.Length == ++seq.Position) seq.Position = 0;`. */
  function Advance(position: int, length: int): int {
    if position + 1 == length then 0 else position + 1
  }

  /** Within the grid the cursor step is a step modulo the length, so the cursor stays in the grid. */
  lemma AdvanceWraps(position: int, length: int)
    requires 0 <= position < length
    ensures Advance(position, length) == (position + 1) % length
    ensures 0 <= Advance(position, length) < length
  {
  }

  /**
   * The position `AddSequence` gives a new sequence: the tick count modulo
   * the length, as a value in the grid, so the cursor is in step with the
   * tick count (`InStepAt`). It is in step with the other sequences only
   * while their cursors are in step with the same count (`Sequencer.InSync`).
   */
  function SyncPosition(tickCount: int, length: int): (p: int)
    requires length > 0
    ensures 0 <= p < length
    ensures (tickCount - p) % length == 0
    ensures tickCount >= 0 ==> p == CsRem(tickCount, length)
  {
    ModDivides(tickCount, length);
    tickCount % length
  }

  /**
   * The position as the source computes it, `_tickCount % seq.Length` with
   * C#'s remainder, which is negative for a negative tick count.
   */
  function SyncPositionAsWritten(tickCount: int, length: int): int
    requires length > 0
  {
    CsRem(tickCount, length)
  }

  /**
   * After 2^31 running ticks the 32-bit tick count wraps to -2^31, and the
   * position given to a sequence of length 3 added then is -2: outside the
   * grid, so the next tick's slot lookup throws.
   */
  lemma SyncPositionAfterWrap()
    ensures Wrap32(0x8000_0000) == Int32Min
    ensures SyncPositionAsWritten(Wrap32(0x8000_0000), 3) == -2
    ensures SyncPosition(Wrap32(0x8000_0000), 3) == 1
    ensures !InStepAt(0x8000_0000, SyncPosition(Wrap32(0x8000_0000), 3), 3)
  {
  }

  /**
   * A cursor at `position` in a grid of `length` slots is in step with a
   * count of ticks when it has moved one slot per tick, starting from slot 0
   * at count 0. Sequences are in sync when every cursor is in step with one
   * and the same count.
   */
  predicate InStepAt(count: int, position: int, length: int) {
    length > 0 && (count - position) % length == 0
  }

  /** A tick moves the count and the cursor on together: it keeps a cursor in step, and never brings one into step. */
  lemma AdvanceInStep(count: int, position: int, length: int)
    requires 0 <= position < length
    ensures InStepAt(count + 1, Advance(position, length), length) <==> InStepAt(count, position, length)
  {
    if position + 1 == length {
      ModSubDivisor(count + 1, length);
      assert count - position == count + 1 - length;
    }
  }

  /**
   * `Start` puts every cursor back to 0 but keeps the tick count. After five
   * running ticks with one sequence of 8 slots, a stop and a start, that
   * sequence is at 0, out of step with the count 5, and a second sequence of
   * 8 slots added then is placed at 5. No count has both cursors in step,
   * and by `AdvanceInStep` no number of ticks changes that: the two stay
   * five slots apart.
   */
  lemma StartThenAddOutOfStep()
    ensures InStepAt(5, 5, 8) && !InStepAt(5, 0, 8)
    ensures SyncPosition(5, 8) == 5
    ensures forall n :: !(InStepAt(n, 0, 8) && InStepAt(n, SyncPosition(5, 8), 8))
  {
  }

  // ---------------------------------------------------------------- lemmas on the spec

  lemma {:induction false} CuesAppend(ss: seq<Sequence>, s: Sequence)
    requires CursorsInRange(ss + [s])
    ensures CursorsInRange(ss)
    ensures Cues(ss + [s]) == Cues(ss) + SlotCues(s)
  {
    assert (ss + [s])[..|ss|] == ss;
  }

  lemma OnMessagesAppend(a: seq<Cue>, b: seq<Cue>)
    ensures OnMessages(a + b) == OnMessages(a) + OnMessages(b)
  {
  }

  /** Registering two batches of cues one after the other is registering them together. */
  lemma {:induction false} RegisterAllAppend(s: seq<Live>, a: seq<Cue>, b: seq<Cue>, now: int)
    ensures RegisterAll(s, a + b, now) == RegisterAll(RegisterAll(s, a, now), b, now)
    decreases |b|
  {
    if b == [] {
      assert a + b == a;
    } else {
      var b' := b[..|b| - 1];
      assert (a + b)[..|a + b| - 1] == a + b';
      assert (a + b)[|a + b| - 1] == b[|b| - 1];
      RegisterAllAppend(s, a, b', now);
    }
  }

  /** One more cue sends one more note-on. */
  lemma OnMessagesSnoc(cues: seq<Cue>, i: int)
    requires 0 <= i < |cues|
    ensures OnMessages(cues[..i + 1]) ==
              OnMessages(cues[..i]) + [NoteOn(cues[i].channel, cues[i].note.noteId, cues[i].note.velocity)]
  {
  }

  /** One more cue registers one more live note, inserted into what the others left. */
  lemma RegisterAllSnoc(s: seq<Live>, cues: seq<Cue>, i: int, now: int)
    requires 0 <= i < |cues|
    ensures RegisterAll(s, cues[..i + 1], now) == Insert(RegisterAll(s, cues[..i], now), LiveOf(cues[i], now))
  {
    assert cues[..i + 1][..i] == cues[..i];
  }

  lemma LivesOfSnoc(cues: seq<Cue>, now: int)
    requires cues != []
    ensures LivesOf(cues, now) == LivesOf(cues[..|cues| - 1], now) + [LiveOf(cues[|cues| - 1], now)]
  {
  }

  /** Registration adds exactly one live note per cue and removes nothing. */
  lemma {:induction false} RegisterAllAdds(s: seq<Live>, cues: seq<Cue>, now: int)
    ensures multiset(RegisterAll(s, cues, now)) == multiset(s) + multiset(LivesOf(cues, now))
    decreases |cues|
  {
    if cues == [] {
      assert LivesOf(cues, now) == [];
    } else {
      var c, x := cues[..|cues| - 1], LiveOf(cues[|cues| - 1], now);
      var r := RegisterAll(s, c, now);
      calc {
        multiset(RegisterAll(s, cues, now));
        multiset(Insert(r, x));
        { InsertAddsOne(r, x); }
        multiset(r) + multiset{x};
        { RegisterAllAdds(s, c, now); }
        multiset(s) + multiset(LivesOf(c, now)) + multiset{x};
        { LivesOfSnoc(cues, now); }
        multiset(s) + multiset(LivesOf(cues, now));
      }
    }
  }

  /**
   * Registration keeps the list sorted and the clocks in step for the next
   * tick, provided every cue has at least one tick of duration.
   */
  lemma {:induction false} RegisterAllKeeps(s: seq<Live>, cues: seq<Cue>, now: int)
    requires Sorted(s) && Due(s, now + 1) && AllSound(s)
    requires forall c :: c in cues ==> CueIsPlayable(c)
    ensures Sorted(RegisterAll(s, cues, now))
    ensures Due(RegisterAll(s, cues, now), now + 1)
    ensures AllSound(RegisterAll(s, cues, now))
    decreases |cues|
  {
    if cues != [] {
      var c := cues[..|cues| - 1];
      var last := cues[|cues| - 1];
      assert last in cues;
      assert forall x :: x in c ==> x in cues;
      RegisterAllKeeps(s, c, now);
      var r := RegisterAll(s, c, now);
      InsertKeepsOrder(r, LiveOf(last, now));
      InsertDue(r, LiveOf(last, now), now + 1);
      InsertAddsOne(r, LiveOf(last, now));
    }
  }

  /**
   * The timing law on one cue: the note registered for it at tick `now`
   * is live with its whole duration left and is due off at `now + duration`.
   */
  lemma RegisteredNoteIsDue(s: seq<Live>, cues: seq<Cue>, now: int, k: int)
    requires 0 <= k < |cues|
    ensures Live(cues[k].note.noteId, cues[k].channel, cues[k].note.durationTicks,
                 now + cues[k].note.durationTicks) in RegisterAll(s, cues, now)
  {
    RegisterAllAdds(s, cues, now);
    assert LivesOf(cues, now)[k] in multiset(LivesOf(cues, now));
  }

  /** The note-offs for notes that can sound are messages the output device accepts. */
  lemma OffMessagesWellFormed(s: seq<Live>)
    requires AllSound(s)
    ensures forall m :: m in OffMessages(s) ==> WellFormed(m)
  {
    forall m | m in OffMessages(s)
      ensures WellFormed(m)
    {
      var k :| 0 <= k < |s| && OffMessages(s)[k] == m;
      assert s[k] in s;
    }
  }

  /** The note-ons for playable cues are messages the output device accepts. */
  lemma OnMessagesWellFormed(cues: seq<Cue>)
    requires forall c :: c in cues ==> CueIsPlayable(c)
    ensures forall m :: m in OnMessages(cues) ==> WellFormed(m)
  {
    forall m | m in OnMessages(cues)
      ensures WellFormed(m)
    {
      var k :| 0 <= k < |cues| && OnMessages(cues)[k] == m;
      assert cues[k] in cues;
    }
  }

  /** Sequences with a valid channel and playable notes only give playable cues. */
  lemma {:induction false} CuesPlayable(ss: seq<Sequence>)
    requires CursorsInRange(ss)
    requires forall s :: s in ss ==> s.Ready()
    ensures forall c :: c in Cues(ss) ==> CueIsPlayable(c)
    decreases |ss|
  {
    if ss != [] {
      var n := |ss| - 1;
      var last := ss[n];
      assert last in ss;
      assert forall s :: s in ss[..n] ==> s in ss;
      CuesPlayable(ss[..n]);
      forall c | c in SlotCues(last)
        ensures CueIsPlayable(c)
      {
        var k :| 0 <= k < |SlotCues(last)| && SlotCues(last)[k] == c;
        assert last.slots[last.position][k] in last.slots[last.position];
      }
    }
  }

  /** The pass switches off and keeps only notes that could sound. */
  lemma OffPassSound(s: seq<Live>)
    requires AllSound(s)
    ensures AllSound(Expired(s)) && AllSound(Remaining(s))
  {
    var k := ExpiredCount(s);
    forall x | x in Remaining(s)
      ensures Sound(x)
    {
      var j :| 0 <= j < |Remaining(s)| && Remaining(s)[j] == x;
      assert s[k + j] in s;
    }
  }

  lemma WellFormedAppend(a: seq<ChannelMessage>, b: seq<ChannelMessage>)
    requires forall m :: m in a ==> WellFormed(m)
    requires forall m :: m in b ==> WellFormed(m)
    ensures forall m :: m in a + b ==> WellFormed(m)
  {
  }

  /**
   * What the note-off pass keeps of the sequencer's invariant, stated on the
   * list before the pass (`before`), its snapshot (`view`) and the list after
   * it (`after`): the notes left are distinct, sorted, sound and due one tick
   * later, and a note stays linked exactly when this tick is not its
   * `offTick`.
   */
  lemma OffPassKeeps(before: seq<LiveNote>, after: seq<LiveNote>, view: seq<Live>, now: int)
    requires |view| == |before| && Distinct(before)
    requires forall i :: 0 <= i < |before| ==> view[i].offTick == before[i].offTick
    requires Sorted(view) && Due(view, now) && AllSound(view)
    requires after == before[ExpiredCount(view)..] && Snapshot(after) == Remaining(view)
    ensures LiveNotesOk(after, now + 1)
    ensures forall n :: n in before ==> (n in after <==> n.offTick != now)
  {
    OffPassKeepsOrder(view);
    OffPassDue(view, now);
    OffPassSound(view);
    DropMembership(before, ExpiredCount(view));
    forall n | n in before
      ensures n in after <==> n.offTick != now
    {
      var i :| 0 <= i < |before| && before[i] == n;
    }
  }

  /** Distinct sequences, each ready to be played on every tick. */
  ghost predicate SequencesOk(ss: seq<Sequence>)
    reads ss, set s | s in ss :: s.slots
  {
    (forall i, j :: 0 <= i < j < |ss| ==> ss[i] != ss[j]) &&
    (forall s :: s in ss ==> s.Schedulable())
  }

  /** Distinct live notes, sorted, each with a tick left and due off at its `offTick` counted from `now`. */
  ghost predicate LiveNotesOk(ns: seq<LiveNote>, now: int)
    reads ns
  {
    Distinct(ns) && Sorted(Snapshot(ns)) && Due(Snapshot(ns), now) && AllSound(Snapshot(ns))
  }

  // ---------------------------------------------------------------- the sequencer

  class Sequencer {
    /** `_isRunning`. */
    var running: bool
    /** `_tickCount`: a 32-bit counter of running ticks. */
    var tickCount: int
    /** `_seqList`. */
    var seqList: seq<Sequence>
    /** `_liveNoteList`, ascending by ticks remaining. */
    var liveNotes: seq<LiveNote>
    /** The messages handed to the output device, oldest first. */
    ghost var sent: seq<ChannelMessage>
    /** The number of running ticks so far: the index of the next one. */
    ghost var runTicks: nat
    /** `_tickCount` without its 32-bit wrap-around. */
    ghost var ticks: nat

    /**
     * The sequencer's invariant: distinct schedulable sequences; distinct,
     * sorted live notes, each with a tick left and due at its `offTick`; a
     * tick count that is `ticks` wrapped to 32 bits; and only well-formed
     * messages sent.
     */
    ghost predicate Valid()
      reads this, seqList, liveNotes, set s | s in seqList :: s.slots
    {
      SequencesOk(seqList) && LiveNotesOk(liveNotes, runTicks) && tickCount == Wrap32(ticks) &&
      forall m :: m in sent ==> WellFormed(m)
    }

    /**
     * What `AddSequence` promises (Sequencer.cs:86): the sequences are in
     * sync, every cursor in step with the tick count.
     */
    ghost predicate InSync()
      reads this, seqList
    {
      forall s :: s in seqList ==> InStepAt(ticks, s.position, s.Length())
    }

    /** `new Sequencer(midiClock, outDev)`: stopped, no sequences, no live notes. */
    constructor ()
      ensures Valid() && InSync()
      ensures !running && tickCount == 0 && seqList == [] && liveNotes == []
      ensures sent == [] && runTicks == 0 && ticks == 0
    {
      running := false;
      tickCount := 0;
      seqList := [];
      liveNotes := [];
      sent := [];
      runTicks := 0;
      ticks := 0;
    }

    /**
     * `Start`: every cursor back to 0, then running. The tick count is kept,
     * so the sequences stay in sync only if it is a multiple of every length
     * (see `StartThenAddOutOfStep`).
     */
    method Start()
      requires Valid()
      modifies this, seqList
      ensures Valid() && running
      ensures seqList == old(seqList) && liveNotes == old(liveNotes) && tickCount == old(tickCount)
      ensures forall i :: 0 <= i < |seqList| ==>
                seqList[i].position == 0 && seqList[i].isEnabled == old(seqList[i].isEnabled)
      ensures sent == old(sent) && runTicks == old(runTicks) && ticks == old(ticks)
      ensures InSync() <==> forall s :: s in seqList ==> ticks % s.Length() == 0
    {
      for i := 0 to |seqList|
        modifies seqList
        invariant forall j :: 0 <= j < i ==> seqList[j].position == 0
        invariant forall j :: 0 <= j < |seqList| ==> seqList[j].isEnabled == old(seqList[j].isEnabled)
        invariant SequencesOk(seqList)
      {
        seqList[i].position := 0;
      }
      running := true;
      assert forall s :: s in seqList ==> s.position == 0 && s.Length() > 0;
    }

    /**
     * `Start` as evidently intended: the cursors and the tick count both go
     * back to 0, so the sequences are in sync and later additions join them
     * in step.
     */
    method Restart()
      requires Valid()
      modifies this, seqList
      ensures Valid() && running && InSync()
      ensures seqList == old(seqList) && liveNotes == old(liveNotes) && tickCount == 0 && ticks == 0
      ensures forall i :: 0 <= i < |seqList| ==>
                seqList[i].position == 0 && seqList[i].isEnabled == old(seqList[i].isEnabled)
      ensures sent == old(sent) && runTicks == old(runTicks)
    {
      Start();
      tickCount := 0;
      ticks := 0;
      assert forall s :: s in seqList ==> s.position == 0 && s.Length() > 0;
    }

    /** `Stop`: only clears the running flag. */
    method Stop()
      requires Valid()
      modifies this
      ensures Valid() && !running
      ensures seqList == old(seqList) && liveNotes == old(liveNotes) && tickCount == old(tickCount)
      ensures sent == old(sent) && runTicks == old(runTicks) && ticks == old(ticks)
      ensures old(InSync()) ==> InSync()
    {
      running := false;
    }

    /** `Continue`: sets the running flag and leaves the cursors where they are. */
    method Continue()
      requires Valid()
      modifies this
      ensures Valid() && running
      ensures seqList == old(seqList) && liveNotes == old(liveNotes) && tickCount == old(tickCount)
      ensures sent == old(sent) && runTicks == old(runTicks) && ticks == old(ticks)
      ensures old(InSync()) ==> InSync()
    {
      running := true;
    }

    /**
     * `AddSequence`: ignores an empty sequence; otherwise appends it and sets
     * its cursor in step with the tick count. That keeps the sequences in sync
     * as long as they were and the 32-bit count has not wrapped.
     */
    method AddSequence(s: Sequence)
      requires Valid()
      requires s !in seqList && s.Ready()
      modifies this, s
      ensures Valid()
      ensures s.Length() == 0 ==> seqList == old(seqList) && s.position == old(s.position)
      ensures s.Length() > 0 ==> seqList == old(seqList) + [s] && s.position == SyncPosition(tickCount, s.Length())
      ensures s.isEnabled == old(s.isEnabled)
      ensures running == old(running) && liveNotes == old(liveNotes) && tickCount == old(tickCount)
      ensures sent == old(sent) && runTicks == old(runTicks) && ticks == old(ticks)
      ensures old(InSync()) && ticks <= Int32Max ==> InSync()
    {
      if s.Length() == 0 {
        return;
      }
      seqList := seqList + [s];
      s.position := SyncPosition(tickCount, s.Length());
    }

    /**
     * The first loop of `HandleNoteOffMessages`: walks from the head while the
     * note there has one tick left, then unlinks the notes walked over and
     * returns them in order.
     */
    method UnlinkExpired() returns (noteOffList: seq<LiveNote>)
      modifies this
      ensures running == old(running) && tickCount == old(tickCount) && seqList == old(seqList)
      ensures runTicks == old(runTicks) && ticks == old(ticks) && sent == old(sent)
      ensures noteOffList == old(liveNotes)[..ExpiredCount(old(Snapshot(liveNotes)))]
      ensures liveNotes == old(liveNotes)[ExpiredCount(old(Snapshot(liveNotes)))..]
    {
      ghost var view := Snapshot(liveNotes);
      var k := 0;
      while k < |liveNotes| && liveNotes[k].ticksRemaining == 1
        invariant 0 <= k <= ExpiredCount(view)
      {
        assert view[k] == Of(liveNotes[k]);
        k := k + 1;
      }
      assert k == ExpiredCount(view) by {
        if k < ExpiredCount(view) {
          assert view[k] == Of(liveNotes[k]);
        }
      }
      noteOffList := liveNotes[..k];
      liveNotes := liveNotes[k..];
    }

    /** The second loop of `HandleNoteOffMessages`: one tick off every live note. */
    method DecrementLiveNotes()
      requires Distinct(liveNotes)
      modifies liveNotes
      ensures Snapshot(liveNotes) == DecrementAll(old(Snapshot(liveNotes)))
    {
      ghost var view := Snapshot(liveNotes);
      var j := 0;
      while j < |liveNotes|
        invariant 0 <= j <= |liveNotes|
        invariant forall i :: 0 <= i < j ==> Of(liveNotes[i]) == Decrement(view[i])
        invariant forall i :: j <= i < |liveNotes| ==> Of(liveNotes[i]) == view[i]
      {
        liveNotes[j].ticksRemaining := liveNotes[j].ticksRemaining - 1;
        j := j + 1;
      }
    }

    /** The first two loops of `HandleNoteOffMessages`: unlink the expired prefix, then decrement what is left. */
    method RemoveExpired() returns (noteOffList: seq<LiveNote>)
      requires Distinct(liveNotes)
      modifies this, liveNotes
      ensures running == old(running) && tickCount == old(tickCount) && seqList == old(seqList)
      ensures runTicks == old(runTicks) && ticks == old(ticks) && sent == old(sent)
      ensures noteOffList == old(liveNotes)[..ExpiredCount(old(Snapshot(liveNotes)))]
      ensures liveNotes == old(liveNotes)[ExpiredCount(old(Snapshot(liveNotes)))..]
      ensures Snapshot(liveNotes) == Remaining(old(Snapshot(liveNotes)))
      ensures Snapshot(noteOffList) == Expired(old(Snapshot(liveNotes)))
    {
      ghost var before, view := liveNotes, Snapshot(liveNotes);
      ghost var k := ExpiredCount(view);
      assert Snapshot(before[k..]) == view[k..] by {
        SnapshotSlices(before, k);
      }
      assert Snapshot(before[..k]) == Expired(view) by {
        SnapshotSlices(before, k);
      }
      noteOffList := UnlinkExpired();
      assert Snapshot(liveNotes) == view[k..];
      DecrementLiveNotes();
      assert forall n :: n in noteOffList ==> n !in liveNotes;
    }

    /** The last loop of `HandleNoteOffMessages`: a note-off with velocity 0 per unlinked note, in order. */
    method SendNoteOffs(noteOffList: seq<LiveNote>)
      modifies this
      ensures running == old(running) && tickCount == old(tickCount) && seqList == old(seqList)
      ensures runTicks == old(runTicks) && ticks == old(ticks) && liveNotes == old(liveNotes) && unchanged(liveNotes)
      ensures sent == old(sent) + OffMessages(Snapshot(noteOffList))
    {
      for i := 0 to |noteOffList|
        invariant running == old(running) && tickCount == old(tickCount) && seqList == old(seqList)
        invariant runTicks == old(runTicks) && ticks == old(ticks) && liveNotes == old(liveNotes)
        invariant sent == old(sent) + OffMessages(Snapshot(noteOffList[..i]))
      {
        sent := sent + [NoteOff(noteOffList[i].channel, noteOffList[i].noteId, 0)];
        assert OffMessages(Snapshot(noteOffList[..i + 1])) ==
               OffMessages(Snapshot(noteOffList[..i])) + [NoteOff(noteOffList[i].channel, noteOffList[i].noteId, 0)];
      }
      assert noteOffList[..|noteOffList|] == noteOffList;
    }

    /**
     * `HandleNoteOffMessages`: removes the maximal prefix of live notes with
     * one tick left, decrements every other live note, then sends a note-off
     * with velocity 0 for each removed note, in list order.
     */
    method HandleNoteOffMessages()
      requires LiveNotesOk(liveNotes, runTicks)
      requires forall m :: m in sent ==> WellFormed(m)
      modifies this, liveNotes
      ensures running == old(running) && tickCount == old(tickCount) && seqList == old(seqList)
      ensures runTicks == old(runTicks) && ticks == old(ticks)
      ensures Snapshot(liveNotes) == Remaining(old(Snapshot(liveNotes)))
      ensures sent == old(sent) + OffMessages(Expired(old(Snapshot(liveNotes))))
      ensures forall m :: m in sent ==> WellFormed(m)
      ensures LiveNotesOk(liveNotes, runTicks + 1)
      ensures forall n :: n in old(liveNotes) ==> (n in liveNotes <==> n.offTick != runTicks)
    {
      ghost var before, view := liveNotes, Snapshot(liveNotes);
      ghost var k := ExpiredCount(view);
      assert forall m :: m in OffMessages(Expired(view)) ==> WellFormed(m) by {
        OffPassSound(view);
        OffMessagesWellFormed(Expired(view));
      }
      assert forall i :: 0 <= i < |before| ==> view[i].offTick == before[i].offTick;
      var noteOffList := RemoveExpired();
      ghost var live := Snapshot(liveNotes);
      SendNoteOffs(noteOffList);
      assert Snapshot(liveNotes) == live;
      assert sent == old(sent) + OffMessages(Expired(view));
      WellFormedAppend(old(sent), OffMessages(Expired(view)));
      OffPassKeeps(before, liveNotes, view, runTicks);
    }

    /**
     * The scan of `RegisterLiveNote`: from the tail, past every live note with
     * more ticks left than `d`.
     */
    method FindInsertPoint(d: int) returns (k: nat)
      ensures k == InsertPoint(Snapshot(liveNotes), d)
    {
      ghost var view := Snapshot(liveNotes);
      k := |liveNotes|;
      assert view[..k] == view;
      while k > 0 && d < liveNotes[k - 1].ticksRemaining
        invariant 0 <= k <= |liveNotes|
        invariant InsertPoint(view, d) == InsertPoint(view[..k], d)
      {
        assert view[k - 1] == Of(liveNotes[k - 1]);
        assert view[..k][..k - 1] == view[..k - 1];
        k := k - 1;
      }
      assert k == InsertPoint(view[..k], d) by {
        if k > 0 {
          assert view[k - 1] == Of(liveNotes[k - 1]);
          assert view[..k][..k - 1] == view[..k - 1];
        }
      }
    }

    /**
     * `RegisterLiveNote`: a new live note with the note's duration left, due
     * off `durationTicks` ticks from now, linked in after the last entry
     * (scanning from the tail) with no more ticks left than it.
     */
    method RegisterLiveNote(note: SequenceNote, chan: int)
      requires Distinct(liveNotes)
      modifies this
      ensures running == old(running) && tickCount == old(tickCount) && seqList == old(seqList)
      ensures sent == old(sent) && runTicks == old(runTicks) && ticks == old(ticks)
      ensures Distinct(liveNotes)
      ensures Snapshot(liveNotes) ==
                Insert(old(Snapshot(liveNotes)), LiveOf(Cue(chan, note), runTicks))
      ensures forall n :: n in old(liveNotes) ==> n in liveNotes
      ensures forall n :: n in liveNotes ==> n in old(liveNotes) || fresh(n)
    {
      var k := FindInsertPoint(note.durationTicks);
      ghost var view, x := Snapshot(liveNotes), LiveOf(Cue(chan, note), runTicks);
      assert Insert(view, x) == view[..k] + [x] + view[k..];
      var liveNote := new LiveNote(note.noteId, chan, note.durationTicks, runTicks + note.durationTicks);
      var spliced := liveNotes[..k] + [liveNote] + liveNotes[k..];
      assert Snapshot(spliced) == view[..k] + [x] + view[k..] by {
        assert Snapshot(liveNotes) == view && Of(liveNote) == x;
        SnapshotSplice(liveNotes, k, liveNote);
      }
      SpliceDistinct(liveNotes, k, liveNote);
      liveNotes := spliced;
    }

    /**
     * `HandleNoteOnMessages(seq)`: for an enabled sequence, sends a note-on
     * for every note of the current slot and registers it as live.
     */
    method HandleSequenceNoteOns(s: Sequence)
      requires 0 <= s.position < s.Length()
      requires Distinct(liveNotes)
      modifies this
      ensures Distinct(liveNotes)
      ensures sent == old(sent) + OnMessages(SlotCues(s))
      ensures Snapshot(liveNotes) == RegisterAll(old(Snapshot(liveNotes)), SlotCues(s), runTicks)
      ensures forall n :: n in old(liveNotes) ==> n in liveNotes
      ensures forall n :: n in liveNotes ==> n in old(liveNotes) || fresh(n)
      ensures running == old(running) && tickCount == old(tickCount) && seqList == old(seqList)
      ensures runTicks == old(runTicks) && ticks == old(ticks)
    {
      var noteList := s.At(s.position);
      if !s.isEnabled || noteList == [] {
        return;
      }
      ghost var cues := SlotCues(s);
      for i := 0 to |noteList|
        invariant Distinct(liveNotes)
        invariant sent == old(sent) + OnMessages(cues[..i])
        invariant Snapshot(liveNotes) == RegisterAll(old(Snapshot(liveNotes)), cues[..i], runTicks)
        invariant forall n :: n in old(liveNotes) ==> n in liveNotes
        invariant forall n :: n in liveNotes ==> n in old(liveNotes) || fresh(n)
        invariant running == old(running) && tickCount == old(tickCount) && seqList == old(seqList)
        invariant runTicks == old(runTicks) && ticks == old(ticks)
      {
        ghost var snap0 := Snapshot(liveNotes);
        var msg := NoteOn(s.channel, noteList[i].noteId, noteList[i].velocity);
        assert cues[i] == Cue(s.channel, noteList[i]);
        assert OnMessages(cues[..i + 1]) == OnMessages(cues[..i]) + [msg] by {
          OnMessagesSnoc(cues, i);
        }
        assert RegisterAll(old(Snapshot(liveNotes)), cues[..i + 1], runTicks) ==
               Insert(snap0, LiveOf(cues[i], runTicks)) by {
          RegisterAllSnoc(old(Snapshot(liveNotes)), cues, i, runTicks);
        }
        AppendAssoc(old(sent), OnMessages(cues[..i]), [msg]);
        sent := sent + [msg];
        assert Snapshot(liveNotes) == snap0;
        RegisterLiveNote(noteList[i], s.channel);
        assert Snapshot(liveNotes) == Insert(snap0, LiveOf(cues[i], runTicks));
      }
      assert cues[..|noteList|] == cues;
    }

    /** `HandleNoteOnMessages()`: the per-sequence pass over every sequence, in list order. */
    method HandleNoteOnMessages(ghost cues: seq<Cue>)
      requires SequencesOk(seqList) && cues == Cues(seqList)
      requires LiveNotesOk(liveNotes, runTicks + 1)
      requires forall m :: m in sent ==> WellFormed(m)
      modifies this
      ensures LiveNotesOk(liveNotes, runTicks + 1)
      ensures forall m :: m in sent ==> WellFormed(m)
      ensures running == old(running) && tickCount == old(tickCount) && seqList == old(seqList)
      ensures runTicks == old(runTicks) && ticks == old(ticks)
      ensures sent == old(sent) + OnMessages(cues)
      ensures Snapshot(liveNotes) == RegisterAll(old(Snapshot(liveNotes)), cues, runTicks)
      ensures forall n :: n in old(liveNotes) ==> n in liveNotes
      ensures forall n :: n in liveNotes ==> n in old(liveNotes) || fresh(n)
    {
      ghost var parts := SlotCuesOf(seqList);
      CuesFlatten(seqList);
      CuesPlayable(seqList);
      OnMessagesWellFormed(Cues(seqList));
      RegisterAllKeeps(Snapshot(liveNotes), Cues(seqList), runTicks);
      for i := 0 to |seqList|
        invariant running == old(running) && tickCount == old(tickCount) && seqList == old(seqList)
        invariant runTicks == old(runTicks) && ticks == old(ticks)
        invariant Distinct(liveNotes)
        invariant sent == old(sent) + OnMessages(Flatten(parts[..i]))
        invariant Snapshot(liveNotes) == RegisterAll(old(Snapshot(liveNotes)), Flatten(parts[..i]), runTicks)
        invariant forall n :: n in old(liveNotes) ==> n in liveNotes
        invariant forall n :: n in liveNotes ==> n in old(liveNotes) || fresh(n)
      {
        var s := seqList[i];
        assert s in seqList;
        assert SlotCues(s) == parts[i];
        ghost var done := Flatten(parts[..i]);
        FlattenSnoc(parts, i);
        HandleSequenceNoteOns(s);
        OnMessagesAppend(done, parts[i]);
        AppendAssoc(old(sent), OnMessages(done), OnMessages(parts[i]));
        RegisterAllAppend(old(Snapshot(liveNotes)), done, parts[i], runTicks);
      }
      assert parts[..|seqList|] == parts;
      WellFormedAppend(old(sent), OnMessages(cues));
    }

    /** The cursor loop of a tick: every sequence's position one step on, wrapping at its length. */
    method AdvanceCursors()
      requires SequencesOk(seqList)
      modifies seqList
      ensures SequencesOk(seqList) && unchanged(this) && unchanged(liveNotes)
      ensures forall i :: 0 <= i < |seqList| ==>
                seqList[i].position == Advance(old(seqList[i].position), seqList[i].Length()) &&
                seqList[i].isEnabled == old(seqList[i].isEnabled)
    {
      for i := 0 to |seqList|
        modifies seqList
        invariant forall j :: 0 <= j < i ==>
                    seqList[j].position == Advance(old(seqList[j].position), seqList[j].Length())
        invariant forall j :: i <= j < |seqList| ==> seqList[j].position == old(seqList[j].position)
        invariant forall j :: 0 <= j < |seqList| ==> seqList[j].isEnabled == old(seqList[j].isEnabled)
        invariant SequencesOk(seqList)
      {
        var s := seqList[i];
        assert s in seqList;
        s.position := s.position + 1;
        if s.Length() == s.position {
          s.position := 0;
        }
      }
    }

    /**
     * The two passes of a running tick: the note-off pass, then the note-on
     * pass. A live note present before them is still live after them exactly
     * when this tick is not its `offTick`.
     */
    method PlayNotes()
      requires SequencesOk(seqList) && LiveNotesOk(liveNotes, runTicks)
      requires forall m :: m in sent ==> WellFormed(m)
      modifies this, liveNotes
      ensures running == old(running) && tickCount == old(tickCount) && seqList == old(seqList)
      ensures runTicks == old(runTicks) && ticks == old(ticks)
      ensures sent == old(sent) + OffMessages(Expired(old(Snapshot(liveNotes)))) + OnMessages(old(Cues(seqList)))
      ensures Snapshot(liveNotes) == RegisterAll(Remaining(old(Snapshot(liveNotes))), old(Cues(seqList)), runTicks)
      ensures forall m :: m in sent ==> WellFormed(m)
      ensures LiveNotesOk(liveNotes, runTicks + 1)
      ensures forall n :: n in old(liveNotes) ==> (n in liveNotes <==> n.offTick != runTicks)
    {
      label Start:
      ghost var cues := Cues(seqList);
      HandleNoteOffMessages();
      SequencesUnchanged@Start(seqList);
      HandleNoteOnMessages(cues);
    }

    /**
     * `MidiClock_TimingClock`: nothing when stopped; otherwise the note-off
     * pass, the note-on pass, the cursor step and the tick count, in that
     * order. A live note present before the tick survives it exactly when the
     * tick is not its `offTick`.
     */
    method TimingClock()
      requires Valid()
      modifies this, seqList, liveNotes
      ensures Valid()
      ensures !old(running) ==> unchanged(this) && unchanged(seqList) && unchanged(liveNotes)
      ensures old(running) ==> running && seqList == old(seqList)
      ensures old(running) ==> runTicks == old(runTicks) + 1 && ticks == old(ticks) + 1 && tickCount == Wrap32(old(tickCount) + 1)
      ensures old(running) ==>
                sent == old(sent) + OffMessages(Expired(old(Snapshot(liveNotes)))) + OnMessages(old(Cues(seqList)))
      ensures old(running) ==>
                Snapshot(liveNotes) == RegisterAll(Remaining(old(Snapshot(liveNotes))), old(Cues(seqList)), old(runTicks))
      ensures old(running) ==> forall i :: 0 <= i < |seqList| ==>
                seqList[i].position == Advance(old(seqList[i].position), seqList[i].Length()) &&
                seqList[i].isEnabled == old(seqList[i].isEnabled)
      ensures old(running) ==> forall n :: n in old(liveNotes) ==> (n in liveNotes <==> n.offTick != old(runTicks))
      ensures old(InSync()) ==> InSync()
    {
      if !running {
        return;
      }
      Tick();
    }

    /** The body of `MidiClock_TimingClock` while running. */
    method Tick()
      requires Valid() && running
      modifies this, seqList, liveNotes
      ensures Valid() && running && seqList == old(seqList)
      ensures runTicks == old(runTicks) + 1 && ticks == old(ticks) + 1 && tickCount == Wrap32(old(tickCount) + 1)
      ensures sent == old(sent) + OffMessages(Expired(old(Snapshot(liveNotes)))) + OnMessages(old(Cues(seqList)))
      ensures Snapshot(liveNotes) == RegisterAll(Remaining(old(Snapshot(liveNotes))), old(Cues(seqList)), old(runTicks))
      ensures forall i :: 0 <= i < |seqList| ==>
                seqList[i].position == Advance(old(seqList[i].position), seqList[i].Length()) &&
                seqList[i].isEnabled == old(seqList[i].isEnabled)
      ensures forall n :: n in old(liveNotes) ==> (n in liveNotes <==> n.offTick != old(runTicks))
      ensures old(InSync()) ==> InSync()
    {
      ghost var sentAfter := old(sent) + OffMessages(Expired(Snapshot(liveNotes))) + OnMessages(Cues(seqList));
      ghost var liveAfter := RegisterAll(Remaining(Snapshot(liveNotes)), Cues(seqList), runTicks);
      PlayNotes();
      assert sent == sentAfter && Snapshot(liveNotes) == liveAfter;
      FinishTick();
    }

    /** The cursor step and the tick count that close `MidiClock_TimingClock`. */
    method FinishTick()
      requires SequencesOk(seqList) && tickCount == Wrap32(ticks)
      requires LiveNotesOk(liveNotes, runTicks + 1)
      requires forall m :: m in sent ==> WellFormed(m)
      modifies this, seqList
      ensures Valid()
      ensures running == old(running) && seqList == old(seqList) && liveNotes == old(liveNotes)
      ensures sent == old(sent) && unchanged(liveNotes)
      ensures runTicks == old(runTicks) + 1 && ticks == old(ticks) + 1 && tickCount == Wrap32(old(tickCount) + 1)
      ensures forall i :: 0 <= i < |seqList| ==>
                seqList[i].position == Advance(old(seqList[i].position), seqList[i].Length()) &&
                seqList[i].isEnabled == old(seqList[i].isEnabled)
      ensures old(InSync()) ==> InSync()
    {
      AdvanceCursors();
      CountTick();
      if old(InSync()) {
        forall s | s in seqList
          ensures InStepAt(ticks, s.position, s.Length())
        {
          var i :| 0 <= i < |seqList| && seqList[i] == s;
          assert old(s.position) == old(seqList[i].position);
          AdvanceInStep(old(ticks), old(s.position), s.Length());
        }
      }
    }

    /**
     * `_tickCount++` on the 32-bit counter, and one more running tick; the
     * live notes are already due against the next tick, so the invariant
     * holds again afterwards.
     */
    method CountTick()
      requires SequencesOk(seqList) && tickCount == Wrap32(ticks)
      requires LiveNotesOk(liveNotes, runTicks + 1)
      requires forall m :: m in sent ==> WellFormed(m)
      modifies this
      ensures Valid()
      ensures running == old(running) && seqList == old(seqList) && liveNotes == old(liveNotes)
      ensures sent == old(sent)
      ensures runTicks == old(runTicks) + 1 && ticks == old(ticks) + 1 && tickCount == Wrap32(old(tickCount) + 1)
    {
      Wrap32Increment(ticks);
      tickCount := Wrap32(tickCount + 1);
      runTicks := runTicks + 1;
      ticks := ticks + 1;
    }
  }
}
