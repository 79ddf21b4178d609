/**
 * `LiveNote` and the ordered list of notes the sequencer keeps sounding.
 *
 * The sequencer keeps its live notes ascending by `TicksRemaining`. Each tick
 * it switches off the maximal prefix whose `TicksRemaining` is 1 and
 * decrements every other entry; each new note is inserted by a scan from the
 * tail. This module states both operations on snapshots of the list
 * (`seq<Live>`) and proves what they preserve.
 *
 * Every live note also carries a ghost `offTick`: the index of the running
 * tick at which it is due to be switched off. `Due(s, now)` ties the two
 * clocks together, and `OffPassDue` / `InsertDue` show that the list keeps
 * that relation, which is how the sequencer's timing law is proved.
 */
module LiveNotes {

  /** A sounding note: `NoteId` and `Channel` are get-only, `TicksRemaining` has a setter. */
  class LiveNote {
    const noteId: int
    const channel: int
    var ticksRemaining: int
    /** The running tick at which this note is due off (model only). */
    ghost const offTick: int

    constructor (noteId: int, chan: int, ticksRemaining: int, ghost offTick: int)
      ensures this.noteId == noteId && this.channel == chan
      ensures this.ticksRemaining == ticksRemaining && this.offTick == offTick
    {
      this.noteId := noteId;
      this.channel := chan;
      this.ticksRemaining := ticksRemaining;
      this.offTick := offTick;
    }
  }

  /** The value of a `LiveNote` at one moment. */
  datatype Live = Live(noteId: int, channel: int, ticksRemaining: int, offTick: int)

  ghost function Of(n: LiveNote): Live
    reads n
  {
    Live(n.noteId, n.channel, n.ticksRemaining, n.offTick)
  }

  /** The values of a list of live notes, in list order. */
  ghost function Snapshot(ns: seq<LiveNote>): (r: seq<Live>)
    reads ns
    ensures |r| == |ns|
    ensures forall i :: 0 <= i < |ns| ==> r[i] == Of(ns[i])
  {
    seq(|ns|, i requires 0 <= i < |ns| reads ns => Of(ns[i]))
  }

  lemma SnapshotSlices(ns: seq<LiveNote>, k: int)
    requires 0 <= k <= |ns|
    ensures Snapshot(ns[..k]) == Snapshot(ns)[..k]
    ensures Snapshot(ns[k..]) == Snapshot(ns)[k..]
  {
  }

  lemma SnapshotSplice(ns: seq<LiveNote>, k: int, n: LiveNote)
    requires 0 <= k <= |ns|
    ensures Snapshot(ns[..k] + [n] + ns[k..]) == Snapshot(ns)[..k] + [Of(n)] + Snapshot(ns)[k..]
  {
  }

  /** No element appears twice in the list (here: no live note is linked twice). */
  predicate Distinct<T(==)>(xs: seq<T>) {
    forall i, j :: 0 <= i < j < |xs| ==> xs[i] != xs[j]
  }

  /** Linking a note that is not yet in the list keeps it distinct and adds exactly that note. */
  lemma SpliceDistinct(ns: seq<LiveNote>, k: int, n: LiveNote)
    requires 0 <= k <= |ns| && Distinct(ns) && n !in ns
    ensures Distinct(ns[..k] + [n] + ns[k..])
    ensures forall m :: m in ns[..k] + [n] + ns[k..] <==> m in ns || m == n
  {
    var r := ns[..k] + [n] + ns[k..];
    assert ns == ns[..k] + ns[k..];
    forall i, j | 0 <= i < j < |r|
      ensures r[i] != r[j]
    {
      if i < k && j > k {
        assert r[i] == ns[i] && r[j] == ns[j - 1];
      } else if i > k {
        assert r[i] == ns[i - 1] && r[j] == ns[j - 1];
      }
    }
  }

  /** In a list without repeats, a note survives dropping the first `k` entries exactly when it sat at `k` or later. */
  lemma DropMembership(ns: seq<LiveNote>, k: int)
    requires 0 <= k <= |ns| && Distinct(ns)
    ensures Distinct(ns[k..])
    ensures forall i :: 0 <= i < |ns| ==> (ns[i] in ns[k..] <==> k <= i)
  {
    forall i | 0 <= i < |ns|
      ensures ns[i] in ns[k..] <==> k <= i
    {
      if k <= i {
        assert ns[k..][i - k] == ns[i];
      }
    }
  }

  /** Ascending by ticks remaining. */
  predicate Sorted(s: seq<Live>) {
    forall i, j :: 0 <= i < j < |s| ==> s[i].ticksRemaining <= s[j].ticksRemaining
  }

  /**
   * The clocks agree: at the start of running tick `now`, every live note has
   * at least one tick left and is due off at tick `offTick`, which is
   * `ticksRemaining - 1` ticks from now.
   */
  predicate Due(s: seq<Live>, now: int) {
    forall x :: x in s ==> 1 <= x.ticksRemaining && x.ticksRemaining == x.offTick - now + 1
  }

  // ---------------------------------------------------------------- note-off pass

  /** The length of the maximal prefix whose notes have exactly one tick left. */
  function ExpiredCount(s: seq<Live>): (k: nat)
    ensures k <= |s|
    ensures forall i :: 0 <= i < k ==> s[i].ticksRemaining == 1
    ensures k < |s| ==> s[k].ticksRemaining != 1
  {
    if s == [] || s[0].ticksRemaining != 1 then 0 else 1 + ExpiredCount(s[1..])
  }

  /** The notes switched off by the pass, in list order. */
  function Expired(s: seq<Live>): seq<Live> {
    s[..ExpiredCount(s)]
  }

  function Decrement(x: Live): Live {
    x.(ticksRemaining := x.ticksRemaining - 1)
  }

  /** Every note with one tick less. */
  function DecrementAll(s: seq<Live>): (r: seq<Live>)
    ensures |r| == |s|
    ensures forall i :: 0 <= i < |s| ==> r[i] == Decrement(s[i])
  {
    seq(|s|, i requires 0 <= i < |s| => Decrement(s[i]))
  }

  /** The list after the pass: the notes left behind, each with one tick less. */
  function Remaining(s: seq<Live>): seq<Live> {
    DecrementAll(s[ExpiredCount(s)..])
  }

  /** The pass splits the list: what it switches off and what it keeps are the whole list, in order. */
  lemma OffPassSplits(s: seq<Live>)
    ensures |Expired(s)| + |Remaining(s)| == |s|
    ensures Expired(s) + s[ExpiredCount(s)..] == s
  {
    var k := ExpiredCount(s);
    assert s[..k] + s[k..] == s;
  }

  /** Removing a prefix and decrementing the rest keeps the list sorted. */
  lemma OffPassKeepsOrder(s: seq<Live>)
    requires Sorted(s)
    ensures Sorted(Remaining(s))
  {
  }

  /**
   * When every note has at least one tick left, the prefix that the pass
   * switches off is exactly the set of notes with one tick left, and what it
   * keeps still has at least one tick left each.
   */
  lemma ExpiryIsExactlyTheDueNotes(s: seq<Live>)
    requires Sorted(s)
    requires forall i :: 0 <= i < |s| ==> s[i].ticksRemaining >= 1
    ensures forall i :: 0 <= i < |s| ==> (i < ExpiredCount(s) <==> s[i].ticksRemaining == 1)
    ensures forall i :: 0 <= i < |Remaining(s)| ==> Remaining(s)[i].ticksRemaining >= 1
  {
    var k := ExpiredCount(s);
    if k < |s| {
      assert s[k].ticksRemaining >= 2;
    }
  }

  /**
   * The hazard of a note with no tick left: once the head of the list has
   * `TicksRemaining < 1` the pass switches nothing off, and the head stays
   * below one forever, so no note behind it is ever switched off again.
   */
  lemma StuckHeadBlocksExpiry(s: seq<Live>)
    requires s != [] && s[0].ticksRemaining < 1
    ensures ExpiredCount(s) == 0
    ensures Remaining(s) != [] && Remaining(s)[0].ticksRemaining < 1
    ensures |Remaining(s)| == |s|
  {
  }

  /**
   * The pass keeps the clocks in step: the notes it switches off at tick `now`
   * are exactly those due at `now`, the rest are due later, and what it keeps
   * satisfies `Due` for the next tick once one tick has gone by.
   */
  lemma {:induction false} OffPassDue(s: seq<Live>, now: int)
    requires Sorted(s) && Due(s, now)
    ensures forall i :: 0 <= i < |s| ==> (i < ExpiredCount(s) <==> s[i].offTick == now)
    ensures forall x :: x in Remaining(s) ==> 1 <= x.ticksRemaining && x.ticksRemaining == x.offTick - now
  {
    forall i | 0 <= i < |s|
      ensures s[i].ticksRemaining >= 1 && s[i].ticksRemaining == s[i].offTick - now + 1
    {
      assert s[i] in s;
    }
    ExpiryIsExactlyTheDueNotes(s);
    RemainingDue(s, now);
  }

  /** What the pass keeps is due one tick closer, and still has a tick left. */
  lemma RemainingDue(s: seq<Live>, now: int)
    requires Sorted(s) && Due(s, now)
    requires forall i :: 0 <= i < |Remaining(s)| ==> Remaining(s)[i].ticksRemaining >= 1
    ensures forall x :: x in Remaining(s) ==> 1 <= x.ticksRemaining && x.ticksRemaining == x.offTick - now
  {
    var t := s[ExpiredCount(s)..];
    var r := Remaining(s);
    assert r == DecrementAll(t);
    forall x | x in r
      ensures 1 <= x.ticksRemaining && x.ticksRemaining == x.offTick - now
    {
      var j :| 0 <= j < |r| && r[j] == x;
      assert r[j].ticksRemaining >= 1;
      assert x == Decrement(t[j]);
      assert t[j] in s;
    }
  }

  // ---------------------------------------------------------------- registration

  /**
   * Where `RegisterLiveNote` puts a note of duration `d`: scanning from the
   * tail, past every entry with more ticks left than `d`.
   */
  function InsertPoint(s: seq<Live>, d: int): (k: nat)
    ensures k <= |s|
    ensures forall i :: k <= i < |s| ==> d < s[i].ticksRemaining
    ensures 0 < k ==> s[k - 1].ticksRemaining <= d
  {
    if s == [] then 0
    else if d < s[|s| - 1].ticksRemaining then InsertPoint(s[..|s| - 1], d)
    else |s|
  }

  /** The list after `RegisterLiveNote`: `x` spliced in at its insertion point. */
  function Insert(s: seq<Live>, x: Live): seq<Live> {
    var k := InsertPoint(s, x.ticksRemaining);
    s[..k] + [x] + s[k..]
  }

  /**
   * In a sorted list the new note goes after every entry with no more ticks
   * left than it (so after equal ones: insertion is stable) and before every
   * entry with more.
   */
  lemma InsertPosition(s: seq<Live>, x: Live)
    requires Sorted(s)
    ensures var k := InsertPoint(s, x.ticksRemaining);
            (forall i :: 0 <= i < k ==> s[i].ticksRemaining <= x.ticksRemaining) &&
            (forall i :: k <= i < |s| ==> x.ticksRemaining < s[i].ticksRemaining) &&
            Insert(s, x)[k] == x
  {
    var d := x.ticksRemaining;
    var k := InsertPoint(s, d);
    forall i | 0 <= i < k
      ensures s[i].ticksRemaining <= d
    {
      assert s[i].ticksRemaining <= s[k - 1].ticksRemaining;
    }
    assert |s[..k]| == k;
  }

  /** Insertion adds exactly the new note and nothing else. */
  lemma InsertAddsOne(s: seq<Live>, x: Live)
    ensures |Insert(s, x)| == |s| + 1
    ensures multiset(Insert(s, x)) == multiset(s) + multiset{x}
    ensures forall y :: y in Insert(s, x) <==> y in s || y == x
  {
    var k := InsertPoint(s, x.ticksRemaining);
    assert s == s[..k] + s[k..];
    calc {
      multiset(Insert(s, x));
      multiset(s[..k]) + multiset{x} + multiset(s[k..]);
      multiset(s[..k] + s[k..]) + multiset{x};
      multiset(s) + multiset{x};
    }
  }

  /** Insertion keeps the list sorted. */
  lemma {:induction false} InsertKeepsOrder(s: seq<Live>, x: Live)
    requires Sorted(s)
    ensures Sorted(Insert(s, x))
  {
    var k := InsertPoint(s, x.ticksRemaining);
    var r := Insert(s, x);
    InsertPosition(s, x);
    forall i, j | 0 <= i < j < |r|
      ensures r[i].ticksRemaining <= r[j].ticksRemaining
    {
      if j < k || i > k {
      } else if i == k {
        assert r[j] == s[j - 1];
      } else if j == k {
        assert r[i] == s[i];
      } else {
        assert r[i] == s[i] && r[j] == s[j - 1];
      }
    }
  }

  /** A note registered with its clocks in step keeps the whole list's clocks in step. */
  lemma InsertDue(s: seq<Live>, x: Live, now: int)
    requires Due(s, now)
    requires 1 <= x.ticksRemaining && x.ticksRemaining == x.offTick - now + 1
    ensures Due(Insert(s, x), now)
  {
    InsertAddsOne(s, x);
  }
}
