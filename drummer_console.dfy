/**
 * The line commands of the drum-machine console (`DrummerConsole`): splitting
 * a command line into a command and its argument, the numeric settings the
 * generated sequences are made with, the tempo step, the pattern notes, and
 * the edits to the sequencer's list (delete, mute, unmute, solo).
 */
module Drummer {
  import opened Common
  import opened Text
  import opened DrummerUtils
  import Midi
  import Sequences
  import Sequencing
  import Clocks
  import LiveNotes

  // ---------------------------------------------------------------- splitting a command line

  predicate IsLetter(c: char) {
    'a' <= c <= 'z'
  }

  /** The length of the longest prefix of `s` made of the letters a to z. */
  function LetterPrefixLength(s: string): (n: nat)
    ensures n <= |s|
    ensures forall i :: 0 <= i < n ==> IsLetter(s[i])
    ensures n < |s| ==> !IsLetter(s[n])
    decreases |s|
  {
    if s == [] || !IsLetter(s[0]) then 0 else 1 + LetterPrefixLength(s[1..])
  }

  /** The characters `Trim('=', ' ')` drops. */
  const Separators: set<char> := {'=', ' '}

  /** A command line after `Trim().ToLowerInvariant()`. */
  function Canonical(str: string): string {
    Lower(Trim(str, WhiteSpace))
  }

  /**
   * What `SplitCommandString` returns: the canonical line as one part when
   * it is all letters a to z; otherwise its letter prefix and the rest of it
   * with '=' and ' ' trimmed from both ends.
   */
  function CommandParts(str: string): seq<string> {
    var s := Canonical(str);
    var n := LetterPrefixLength(s);
    if n == |s| then [s] else [s[..n], Trim(s[n..], Separators)]
  }

  /** `SplitCommandString`: scans the canonical line for its first character outside a to z. */
  method SplitCommandString(str: string) returns (parts: seq<string>)
    ensures parts == CommandParts(str)
  {
    var s := Lower(Trim(str, WhiteSpace));
    var len := |s|;
    var idx := 0;
    while idx < len
      invariant 0 <= idx <= len
      invariant forall i :: 0 <= i < idx ==> IsLetter(s[i])
    {
      if !IsLetter(s[idx]) {
        break;
      }
      idx := idx + 1;
    }
    if idx == len {
      return [s];
    }
    parts := [s[..idx], Trim(s[idx..], Separators)];
  }

  /**
   * A line gives one part exactly when its canonical form is all letters,
   * and then that form; otherwise two: the letter prefix, which the rest
   * follows with a non-letter, and an argument with neither '=' nor ' ' at
   * either end.
   */
  lemma CommandPartsShape(str: string)
    ensures var s, p := Canonical(str), CommandParts(str);
      (|p| == 1 || |p| == 2) &&
      (|p| == 1 <==> forall i :: 0 <= i < |s| ==> IsLetter(s[i])) &&
      (|p| == 1 ==> p[0] == s) &&
      (forall i :: 0 <= i < |p[0]| ==> IsLetter(p[0][i])) &&
      (|p| == 2 ==> |p[0]| < |s| && s[..|p[0]|] == p[0] && !IsLetter(s[|p[0]|]) &&
                    (p[1] != [] ==> p[1][0] !in Separators && p[1][|p[1]| - 1] !in Separators))
  {
    var s := Canonical(str);
    var n := LetterPrefixLength(s);
    if n < |s| {
      TrimShape(s[n..], Separators);
    }
  }

  /** `string.IsNullOrWhiteSpace` on a non-null string. */
  predicate IsBlank(str: string) {
    forall i :: 0 <= i < |str| ==> IsWhiteSpace(str[i])
  }

  /** A blank line is one empty part, so the two-part test would refuse it as well. */
  lemma BlankIsOnePart(str: string)
    requires IsBlank(str)
    ensures CommandParts(str) == [""]
  {
    assert forall i :: 0 <= i < |str| ==> str[i] in WhiteSpace;
    TrimShape(str, WhiteSpace);
  }

  /**
   * `cmd=n` and `cmd n`, for a command of letters, split into the command
   * and the decimal form of `n`, which parses back to `n`.
   */
  lemma CommandLine(cmd: string, sep: char, n: int)
    requires cmd != [] && forall i :: 0 <= i < |cmd| ==> IsLetter(cmd[i])
    requires sep in Separators && IsInt32(n)
    ensures CommandParts(cmd + [sep] + IntToString(n)) == [cmd, IntToString(n)]
    ensures TryParseInt(IntToString(n)) == Some(n)
  {
    var d := IntToString(n);
    assert IsDigit(d[0]) || d[0] == '-';
    SplitsAt(cmd, sep, d);
    IntToStringParses(n);
  }

  /**
   * A command of letters, a separator and an argument that neither starts
   * nor ends with white space or a separator, and has no upper-case letter,
   * split into the command and the argument.
   */
  lemma SplitsAt(cmd: string, sep: char, arg: string)
    requires cmd != [] && forall i :: 0 <= i < |cmd| ==> IsLetter(cmd[i])
    requires sep in Separators && arg != []
    requires arg[0] !in Separators && arg[|arg| - 1] !in Separators && !IsWhiteSpace(arg[|arg| - 1])
    requires forall i :: 0 <= i < |arg| ==> !('A' <= arg[i] <= 'Z')
    ensures CommandParts(cmd + [sep] + arg) == [cmd, arg]
  {
    var line := cmd + [sep] + arg;
    NoUpperJoined(cmd, sep, arg);
    assert line[|line| - 1] == arg[|arg| - 1];
    CanonicalKeeps(line);
    LetterPrefixOf(cmd, sep, arg);
    TrimsSeparator(sep, arg);
    assert CommandParts(line) == [line[..|cmd|], Trim(line[|cmd|..], Separators)];
  }

  /** Joining lower-case pieces with a separator leaves no upper-case letter. */
  lemma NoUpperJoined(cmd: string, sep: char, arg: string)
    requires forall i :: 0 <= i < |cmd| ==> IsLetter(cmd[i])
    requires sep in Separators
    requires forall i :: 0 <= i < |arg| ==> !('A' <= arg[i] <= 'Z')
    ensures var line := cmd + [sep] + arg; forall i :: 0 <= i < |line| ==> !('A' <= line[i] <= 'Z')
  {
    var line := cmd + [sep] + arg;
    forall i | 0 <= i < |line|
      ensures !('A' <= line[i] <= 'Z')
    {
      if i > |cmd| {
        assert line[i] == arg[i - |cmd| - 1];
      }
    }
  }

  /** The letter prefix of a command, a separator and anything after is the command. */
  lemma LetterPrefixOf(cmd: string, sep: char, arg: string)
    requires forall i :: 0 <= i < |cmd| ==> IsLetter(cmd[i])
    requires sep in Separators
    ensures var line := cmd + [sep] + arg;
      LetterPrefixLength(line) == |cmd| && line[..|cmd|] == cmd && line[|cmd|..] == [sep] + arg
  {
    var line := cmd + [sep] + arg;
    assert line[..|cmd|] == cmd && line[|cmd|] == sep;
    assert line[|cmd|..] == [sep] + arg;
  }

  /** A line that starts with a letter, does not end in white space and has no upper-case letter is canonical. */
  lemma CanonicalKeeps(line: string)
    requires line != [] && IsLetter(line[0]) && !IsWhiteSpace(line[|line| - 1])
    requires forall i :: 0 <= i < |line| ==> !('A' <= line[i] <= 'Z')
    ensures Canonical(line) == line
  {
    assert line[0] !in WhiteSpace && line[|line| - 1] !in WhiteSpace;
    TrimKeeps(line, WhiteSpace);
    LowerKeeps(line);
  }

  /** A leading separator is trimmed, and an argument without separators at its ends is kept. */
  lemma TrimsSeparator(sep: char, arg: string)
    requires sep in Separators && arg != [] && arg[0] !in Separators && arg[|arg| - 1] !in Separators
    ensures Trim([sep] + arg, Separators) == arg
  {
    assert TrimStart(arg, Separators) == arg;
    assert TrimStart([sep] + arg, Separators) == arg by {
      assert ([sep] + arg)[1..] == arg;
    }
    assert TrimEnd(arg, Separators) == arg;
  }

    // ---------------------------------------------------------------- settings

  /** `IsInRange`: the half-open range `min <= v < max`. */
  predicate IsInRange(v: int, min: int, max: int) {
    v >= min && v < max
  }

  /**
   * The settings new sequences are made with: `_chan` (a channel index,
   * channel 1 being 0), `_seqLen` in clock ticks, `_quant`, `_prob` and
   * `_noteId`.
   */
  datatype Settings = Settings(chan: int, seqLen: int, quant: int, prob: real, noteId: int)

  /** Channel 10 (index 9), sixteen beats, quantization 12, probability 0.4 and note 60. */
  const InitialSettings: Settings := Settings(9, 16 * Midi.ClocksPerBeat, 12, 0.4, 60)

  /**
   * The ranges the numeric commands admit: channels 1 to 16, at most 99999
   * beats, quantization 1 to 24, a probability above 0 and at most 1, and
   * a MIDI note.
   */
  predicate SettingsOk(s: Settings) {
    0 <= s.chan < 16 && 0 <= s.seqLen <= 99999 * Midi.ClocksPerBeat && 1 <= s.quant <= 24 &&
    0.0 < s.prob <= 1.0 && 0 <= s.noteId < 128
  }

  /** The line commands with an integer argument. */
  const NumericCommands: set<string> := {"c", "lc", "lb", "q", "n", "p"}

  /** The other line commands. */
  const NonNumericCommands: set<string> := {"ns", "d", "m", "u", "o"}

  /**
   * `HandleCmd_NumericState` once its argument has parsed as `val`: whether
   * the command counts as handled, and the new settings. Each command
   * changes only its own setting, and only to a value in its range; a value
   * outside the range leaves the settings as they were and is still handled,
   * except by `lc`.
   */
  function NumericCommand(s: Settings, cmd: string, val: int): (r: (bool, Settings))
    ensures SettingsOk(s) ==> SettingsOk(r.1)
    ensures r.0 <==> cmd in NumericCommands && (cmd == "lc" ==> 0 <= val <= 99999)
    ensures !r.0 ==> r.1 == s
  {
    if cmd == "c" then (true, if IsInRange(val, 1, 17) then s.(chan := val - 1) else s)
    else if cmd == "lc" then (if IsInRange(val, 0, 100000) then (true, s.(seqLen := val)) else (false, s))
    else if cmd == "lb" then (true, if IsInRange(val, 0, 100000) then s.(seqLen := val * Midi.ClocksPerBeat) else s)
    else if cmd == "q" then (true, if IsInRange(val, 1, 25) then s.(quant := val) else s)
    else if cmd == "n" then (true, if IsInRange(val, 0, 128) then s.(noteId := val) else s)
    else if cmd == "p" then (true, if IsInRange(val, 1, 1000) then s.(prob := Inverse(val)) else s)
    else (false, s)
  }

  /** A value in the command's range becomes the command's setting: channel `val` is stored as index `val - 1`, a length in beats as clock ticks, a probability as `1 / val`. */
  lemma NumericCommandSets(s: Settings, cmd: string, val: int)
    ensures var r := NumericCommand(s, cmd, val).1;
      (cmd == "c" && 1 <= val <= 16 ==> r.chan == val - 1) &&
      (cmd == "lc" && 0 <= val <= 99999 ==> r.seqLen == val) &&
      (cmd == "lb" && 0 <= val <= 99999 ==> r.seqLen == val * Midi.ClocksPerBeat) &&
      (cmd == "q" && 1 <= val <= 24 ==> r.quant == val) &&
      (cmd == "n" && 0 <= val <= 127 ==> r.noteId == val) &&
      (cmd == "p" && 1 <= val <= 999 ==> r.prob * val as real == 1.0)
  {
  }

  /** A setting changes only through its own command and a value in that command's range. */
  lemma NumericCommandKeeps(s: Settings, cmd: string, val: int)
    ensures var r := NumericCommand(s, cmd, val).1;
      (r.chan != s.chan ==> cmd == "c" && 1 <= val <= 16) &&
      (r.seqLen != s.seqLen ==> (cmd == "lc" || cmd == "lb") && 0 <= val <= 99999) &&
      (r.quant != s.quant ==> cmd == "q" && 1 <= val <= 24) &&
      (r.noteId != s.noteId ==> cmd == "n" && 0 <= val <= 127) &&
      (r.prob != s.prob ==> cmd == "p" && 1 <= val <= 999)
  {
  }

  /** `1.0 / val` for a positive `val`: a probability above 0 and at most 1. */
  function Inverse(val: int): (p: real)
    requires val >= 1
    ensures 0.0 < p <= 1.0 && p * val as real == 1.0
  {
    1.0 / val as real
  }

  /**
   * `HandleCmd_Tempo`'s new tempo: one beat per minute up or down from the
   * current one (a 32-bit sum), clamped to 1..360. Inside that range it
   * moves by one and stops at either end.
   */
  function TempoStep(bpm: int, increment: bool): (r: int)
    ensures 1 <= r <= 360
    ensures 1 <= bpm < 360 && increment ==> r == bpm + 1
    ensures 1 < bpm <= 360 && !increment ==> r == bpm - 1
    ensures bpm == 360 && increment ==> r == 360
    ensures bpm == 1 && !increment ==> r == 1
  {
    Clamp(Wrap32(bpm + (if increment then 1 else -1)), 1, 360)
  }

  // ---------------------------------------------------------------- removing from a list

  /** The elements of `xs`, numbered from `base`, whose numbers are not in `gone`, in their order. */
  function DropFrom<T>(xs: seq<T>, gone: set<int>, base: int): seq<T>
    decreases |xs|
  {
    if xs == [] then [] else (if base in gone then [] else [xs[0]]) + DropFrom(xs[1..], gone, base + 1)
  }

  /** `xs` without the elements at the indices in `gone`. */
  function Drop<T>(xs: seq<T>, gone: set<int>): seq<T> {
    DropFrom(xs, gone, 0)
  }

  lemma {:induction false} DropFromAppend<T>(a: seq<T>, b: seq<T>, gone: set<int>, base: int)
    ensures DropFrom(a + b, gone, base) == DropFrom(a, gone, base) + DropFrom(b, gone, base + |a|)
    decreases |a|
  {
    if a != [] {
      assert (a + b)[1..] == a[1..] + b;
      DropFromAppend(a[1..], b, gone, base + 1);
    } else {
      assert a + b == b;
    }
  }

  /** Numbers that agree on membership in the two sets drop the same elements. */
  lemma {:induction false} DropFromAgree<T>(xs: seq<T>, g1: set<int>, g2: set<int>, base: int)
    requires forall k :: base <= k < base + |xs| ==> (k in g1 <==> k in g2)
    ensures DropFrom(xs, g1, base) == DropFrom(xs, g2, base)
    decreases |xs|
  {
    if xs != [] {
      DropFromAgree(xs[1..], g1, g2, base + 1);
    }
  }

  /** Nothing is dropped when no number of the stretch is in `gone`. */
  lemma {:induction false} DropFromNone<T>(xs: seq<T>, gone: set<int>, base: int)
    requires forall k :: base <= k < base + |xs| ==> k !in gone
    ensures DropFrom(xs, gone, base) == xs
    decreases |xs|
  {
    if xs != [] {
      DropFromNone(xs[1..], gone, base + 1);
      assert [xs[0]] + xs[1..] == xs;
    }
  }

  /**
   * With only indices above `j` gone, the element at `j` is still at `j`,
   * and removing it there drops index `j` as well: so removing indices from
   * the highest down removes exactly them.
   */
  lemma DropRemoveAt<T>(xs: seq<T>, gone: set<int>, j: int)
    requires 0 <= j < |xs| && forall k :: k in gone ==> k > j
    ensures var r := Drop(xs, gone);
      j < |r| && r[j] == xs[j] && r[..j] + r[j + 1..] == Drop(xs, gone + {j})
  {
    var front, tail := xs[..j], xs[j + 1..];
    DropAround(xs, gone, j);
    DropAround(xs, gone + {j}, j);
    DropFromNone(front, gone, 0);
    DropFromNone(front, gone + {j}, 0);
    DropFromAgree(tail, gone, gone + {j}, j + 1);
    var r, rest := Drop(xs, gone), DropFrom(tail, gone, j + 1);
    assert r == front + [xs[j]] + rest;
    assert r[..j] == front && r[j + 1..] == rest;
  }

  /** Dropping from a list is dropping from the stretch before `j`, from `j` itself and from the rest. */
  lemma DropAround<T>(xs: seq<T>, gone: set<int>, j: int)
    requires 0 <= j < |xs|
    ensures Drop(xs, gone) ==
      DropFrom(xs[..j], gone, 0) + (if j in gone then [] else [xs[j]]) + DropFrom(xs[j + 1..], gone, j + 1)
  {
    var front, tail := xs[..j], xs[j + 1..];
    assert xs == (front + [xs[j]]) + tail;
    DropFromAppend(front + [xs[j]], tail, gone, 0);
    DropFromAppend(front, [xs[j]], gone, 0);
    assert DropFrom([xs[j]], gone, j) == if j in gone then [] else [xs[j]];
  }

  /** Of distinct elements, `DropFrom` keeps exactly those whose numbers are not in `gone`, and no others. */
  lemma {:induction false} DropFromExactly<T>(xs: seq<T>, gone: set<int>, base: int)
    requires LiveNotes.Distinct(xs)
    ensures forall k :: 0 <= k < |xs| ==> (xs[k] in DropFrom(xs, gone, base) <==> base + k !in gone)
    ensures forall x :: x in DropFrom(xs, gone, base) ==> x in xs
    decreases |xs|
  {
    if xs != [] {
      var tail := xs[1..];
      DropFromExactly(tail, gone, base + 1);
      var r := DropFrom(tail, gone, base + 1);
      forall k | 0 <= k < |xs|
        ensures xs[k] in DropFrom(xs, gone, base) <==> base + k !in gone
      {
        if k == 0 {
          assert xs[0] !in r by {
            forall i | 0 <= i < |tail|
              ensures tail[i] != xs[0]
            {
              assert tail[i] == xs[i + 1];
            }
          }
        } else {
          assert xs[k] == tail[k - 1];
        }
      }
      forall x | x in DropFrom(xs, gone, base)
        ensures x in xs
      {
        if x in r {
          var i :| 0 <= i < |tail| && tail[i] == x;
          assert xs[i + 1] == x;
        }
      }
    }
  }

  /** Of a list of distinct elements, `Drop` removes exactly those at the indices in `gone`. */
  lemma DropExactly<T>(xs: seq<T>, gone: set<int>)
    requires LiveNotes.Distinct(xs)
    ensures forall k :: 0 <= k < |xs| ==> (xs[k] in Drop(xs, gone) <==> k !in gone)
    ensures forall x :: x in Drop(xs, gone) ==> x in xs
  {
    DropFromExactly(xs, gone, 0);
  }

  /** Removing one sequence keeps the rest distinct and schedulable. */
  lemma RemoveKeepsSequencesOk(ss: seq<Sequences.Sequence>, j: int)
    requires Sequencing.SequencesOk(ss) && 0 <= j < |ss|
    ensures Sequencing.SequencesOk(ss[..j] + ss[j + 1..])
  {
    var r := ss[..j] + ss[j + 1..];
    forall a, b | 0 <= a < b < |r|
      ensures r[a] != r[b]
    {
      var a', b' := if a < j then a else a + 1, if b < j then b else b + 1;
      assert r[a] == ss[a'] && r[b] == ss[b'] && a' < b';
    }
    forall s | s in r
      ensures s.Schedulable()
    {
      var i :| 0 <= i < |r| && r[i] == s;
      assert s == ss[if i < j then i else i + 1];
    }
  }

  /** Changing only the enabled flags keeps the sequences distinct and schedulable. */
  twostate lemma FlagsKeepSequencesOk(ss: seq<Sequences.Sequence>)
    requires old(Sequencing.SequencesOk(ss))
    requires forall k :: 0 <= k < |ss| ==> ss[k].position == old(ss[k].position) && unchanged(ss[k].slots)
    ensures Sequencing.SequencesOk(ss)
  {
    forall s | s in ss
      ensures s.Schedulable()
    {
      var k :| 0 <= k < |ss| && ss[k] == s;
      assert old(s.Schedulable());
    }
  }

  /**
   * The loop of `d`: removes the sequences at the indices of a strictly
   * ascending `idxArr`, from the last index down, so that each index still
   * names the sequence it named before the loop.
   */
  method RemoveEach(sq: Sequencing.Sequencer, idxArr: seq<int>)
    requires StrictlyAscending(idxArr) && forall k :: 0 <= k < |idxArr| ==> 0 <= idxArr[k] < |sq.seqList|
    requires Sequencing.SequencesOk(sq.seqList)
    modifies sq
    ensures sq.seqList == Drop(old(sq.seqList), Members(idxArr))
    ensures Sequencing.SequencesOk(sq.seqList)
    ensures sq.running == old(sq.running) && sq.tickCount == old(sq.tickCount) && sq.liveNotes == old(sq.liveNotes)
    ensures sq.sent == old(sq.sent) && sq.runTicks == old(sq.runTicks) && sq.ticks == old(sq.ticks)
  {
    ghost var list := sq.seqList;
    ghost var gone: set<int> := {};
    DropFromNone(list, gone, 0);
    var i := |idxArr| - 1;
    while i >= 0
      invariant -1 <= i < |idxArr|
      invariant forall x :: x in gone <==> x in idxArr[i + 1..]
      invariant sq.seqList == Drop(list, gone)
      invariant Sequencing.SequencesOk(sq.seqList)
      invariant sq.running == old(sq.running) && sq.tickCount == old(sq.tickCount) && sq.liveNotes == old(sq.liveNotes)
      invariant sq.sent == old(sq.sent) && sq.runTicks == old(sq.runTicks) && sq.ticks == old(sq.ticks)
    {
      var j := idxArr[i];
      assert forall k :: k in gone ==> k > j;
      DropRemoveAt(list, gone, j);
      RemoveKeepsSequencesOk(sq.seqList, j);
      sq.seqList := sq.seqList[..j] + sq.seqList[j + 1..];
      gone := gone + {j};
      i := i - 1;
    }
    assert gone == Members(idxArr) by {
      assert idxArr[0..] == idxArr;
      forall x
        ensures x in gone <==> x in Members(idxArr)
      {
      }
    }
  }

  /** The loop of `m` and `u`: the flag of each sequence at an index in `idxArr` becomes `isEnabled`, from the last index down. */
  method EnableAt(ss: seq<Sequences.Sequence>, idxArr: seq<int>, isEnabled: bool)
    requires LiveNotes.Distinct(ss) && forall k :: 0 <= k < |idxArr| ==> 0 <= idxArr[k] < |ss|
    modifies ss
    ensures forall k :: 0 <= k < |ss| ==>
      ss[k].position == old(ss[k].position) &&
      ss[k].isEnabled == (if k in idxArr then isEnabled else old(ss[k].isEnabled))
  {
    var i := |idxArr| - 1;
    while i >= 0
      invariant -1 <= i < |idxArr|
      invariant forall k :: 0 <= k < |ss| ==>
        ss[k].position == old(ss[k].position) &&
        ss[k].isEnabled == (if k in idxArr[i + 1..] then isEnabled else old(ss[k].isEnabled))
    {
      ss[idxArr[i]].isEnabled := isEnabled;
      i := i - 1;
    }
    assert idxArr[0..] == idxArr;
  }

  /** The loop of `o`: the flag of each sequence becomes whether its index is in `idxSet`. */
  method EnableExactly(ss: seq<Sequences.Sequence>, idxSet: set<int>)
    requires LiveNotes.Distinct(ss)
    modifies ss
    ensures forall k :: 0 <= k < |ss| ==> ss[k].position == old(ss[k].position) && ss[k].isEnabled == (k in idxSet)
  {
    var count := |ss|;
    for i := 0 to count
      invariant forall k :: 0 <= k < count ==> ss[k].position == old(ss[k].position)
      invariant forall k :: 0 <= k < i ==> ss[k].isEnabled == (k in idxSet)
    {
      ss[i].isEnabled := i in idxSet;
    }
  }

  /**
   * An edit of the sequence list that leaves the console, the clock, the
   * live notes and the sequencer's counters alone and the sequences distinct
   * and schedulable keeps the console valid.
   */
  twostate lemma ListEditKeepsValid(c: DrummerConsole)
    requires old(c.Valid())
    requires unchanged(c) && (c.internalClock != null ==> unchanged(c.internalClock))
    requires c.sequencer.liveNotes == old(c.sequencer.liveNotes) && c.sequencer.tickCount == old(c.sequencer.tickCount)
    requires c.sequencer.sent == old(c.sequencer.sent) && c.sequencer.runTicks == old(c.sequencer.runTicks) &&
             c.sequencer.ticks == old(c.sequencer.ticks)
    requires forall n :: n in c.sequencer.liveNotes ==> unchanged(n)
    requires Sequencing.SequencesOk(c.sequencer.seqList)
    ensures c.Valid()
  {
    var sq := c.sequencer;
    var ns := sq.liveNotes;
    assert LiveNotes.Snapshot(ns) == old(LiveNotes.Snapshot(ns)) by {
      forall i | 0 <= i < |ns|
        ensures LiveNotes.Snapshot(ns)[i] == old(LiveNotes.Snapshot(ns))[i]
      {
        assert ns[i] in ns;
      }
    }
  }

  /**
   * An edit of the console's own fields that keeps the settings in range
   * and the pattern notes MIDI notes keeps the console valid.
   */
  twostate lemma SettingsEditKeepsValid(c: DrummerConsole)
    requires old(c.Valid())
    requires unchanged(c.sequencer) && (c.internalClock != null ==> unchanged(c.internalClock))
    requires forall s :: s in c.sequencer.seqList ==> unchanged(s) && unchanged(s.slots)
    requires forall n :: n in c.sequencer.liveNotes ==> unchanged(n)
    requires SettingsOk(c.State()) && forall n :: n in c.patternNoteSet ==> 0 <= n <= 127
    ensures c.Valid()
  {
    var sq := c.sequencer;
    var ns := sq.liveNotes;
    assert LiveNotes.Snapshot(ns) == old(LiveNotes.Snapshot(ns)) by {
      forall i | 0 <= i < |ns|
        ensures LiveNotes.Snapshot(ns)[i] == old(LiveNotes.Snapshot(ns))[i]
      {
        assert ns[i] in ns;
      }
    }
    forall s | s in sq.seqList
      ensures s.Schedulable()
    {
      assert old(s.Schedulable());
    }
  }

  // ---------------------------------------------------------------- the BPM prompt

  /**
   * The range guard of the BPM prompt as written (`val < 0 && val > 300`):
   * no integer is both, so it never rejects anything.
   */
  predicate BpmGuardAsWritten(val: int) {
    val < 0 && val > 300
  }

  /** The guard as intended by its message: outside [1, 300]. */
  predicate BpmGuard(val: int) {
    val < 1 || val > 300
  }

  /** The BPM read at the clock prompt (`Trim().ToLowerInvariant()`, then `int.TryParse`), guarded as written. */
  function SelectBpmAsWritten(line: string): Option<int> {
    var val := TryParseInt(Lower(Trim(line, WhiteSpace)));
    if val.None? || BpmGuardAsWritten(val.value) then None else Some(val.value)
  }

  /** The BPM read at the clock prompt with the intended guard: an internal clock can be made from it. */
  function SelectBpm(line: string): (r: Option<int>)
    ensures r.Some? ==> 1 <= r.value <= 300 && Clocks.ClocksPerMin(r.value) == r.value * Midi.ClocksPerBeat
    ensures r.Some? ==> 7 <= Clocks.Period(r.value) <= 2500
    ensures r.Some? <==> var val := TryParseInt(Lower(Trim(line, WhiteSpace))); val.Some? && 1 <= val.value <= 300
  {
    var val := TryParseInt(Lower(Trim(line, WhiteSpace)));
    if val.None? || BpmGuard(val.value) then None
    else
      Clocks.PeriodBounds(val.value);
      Some(val.value)
  }

  /**
   * The guard as written lets "0" and "-1" through, and neither gives the
   * clock a positive clocks-per-minute product: the period `1000 / 0` is
   * infinite and `1000 / -0.4` negative.
   */
  lemma BpmGuardAdmitsNonPositive()
    ensures SelectBpmAsWritten("0") == Some(0) && Clocks.ClocksPerMin(0) == 0
    ensures SelectBpmAsWritten("-1") == Some(-1) && Clocks.ClocksPerMin(-1) == -24
  {
    assert IntToString(0) == "0";
    ParsesItself(0);
    assert IntToString(-1) == "-1";
    ParsesItself(-1);
  }

  /** A decimal form is its own trimmed, lower-cased form, and parses back. */
  lemma ParsesItself(n: int)
    requires IsInt32(n)
    ensures TryParseInt(Lower(Trim(IntToString(n), WhiteSpace))) == Some(n)
  {
    var d := IntToString(n);
    TrimKeeps(d, WhiteSpace);
    LowerKeeps(d);
    IntToStringParses(n);
  }

  /** The intended guard admits exactly the tempi 1 to 300. */
  lemma BpmGuardAdmits(n: int)
    requires IsInt32(n)
    ensures SelectBpm(IntToString(n)) == (if 1 <= n <= 300 then Some(n) else None)
  {
    ParsesItself(n);
  }

  // ---------------------------------------------------------------- the console

  /** A `NoteSet`: a name and its notes. */
  datatype NoteSet = NoteSet(name: string, notes: seq<int>)

  /** Every note of every named set is a MIDI note. */
  predicate NotesInRange(noteSets: map<string, seq<int>>) {
    forall name, n :: name in noteSets && n in noteSets[name] ==> 0 <= n <= 127
  }

  class DrummerConsole {
    var chan: int
    var seqLen: int
    var quant: int
    var prob: real
    var noteId: int
    /** `_patternNoteSet`. */
    var patternNoteSet: set<int>
    /** `_noteSetDict`: the note sets by lower-cased name. */
    const noteSetDict: map<string, seq<int>>
    /** `_sequencer`. */
    const sequencer: Sequencing.Sequencer
    /** `_midiClock as InternalMidiClock`: null when synced to an external clock. */
    const internalClock: Clocks.InternalMidiClock?

    function State(): Settings
      reads this
    {
      Settings(chan, seqLen, quant, prob, noteId)
    }

    /**
     * Settings in their ranges, pattern notes and named notes that are MIDI
     * notes, and a valid sequencer and clock.
     */
    ghost predicate Valid()
      reads this, sequencer, sequencer.seqList, sequencer.liveNotes
      reads set s | s in sequencer.seqList :: s.slots
      reads internalClock
    {
      SettingsOk(State()) && NotesInRange(noteSetDict) &&
      (forall n :: n in patternNoteSet ==> 0 <= n <= 127) &&
      sequencer.Valid() && (internalClock != null ==> internalClock.Valid())
    }

    /**
     * `DrummerConsole()`, with the sequencer and clock that `Run` sets up:
     * the note sets keyed by their lower-cased names (adding a name twice
     * throws), the initial settings and no pattern notes.
     */
    constructor (sequencer: Sequencing.Sequencer, clock: Clocks.InternalMidiClock?, noteSets: seq<NoteSet>)
      requires sequencer.Valid() && (clock != null ==> clock.Valid())
      requires forall k, n :: 0 <= k < |noteSets| && n in noteSets[k].notes ==> 0 <= n <= 127
      requires forall j, k :: 0 <= j < k < |noteSets| ==> Lower(noteSets[j].name) != Lower(noteSets[k].name)
      ensures Valid()
      ensures State() == InitialSettings && patternNoteSet == {}
      ensures this.sequencer == sequencer && internalClock == clock
      ensures noteSetDict.Keys == set k | 0 <= k < |noteSets| :: Lower(noteSets[k].name)
      ensures forall k :: 0 <= k < |noteSets| ==> noteSetDict[Lower(noteSets[k].name)] == noteSets[k].notes
    {
      var dict: map<string, seq<int>> := map[];
      for i := 0 to |noteSets|
        invariant dict.Keys == set k | 0 <= k < i :: Lower(noteSets[k].name)
        invariant forall k :: 0 <= k < i ==> dict[Lower(noteSets[k].name)] == noteSets[k].notes
        invariant NotesInRange(dict)
      {
        dict := dict[Lower(noteSets[i].name) := noteSets[i].notes];
      }
      noteSetDict := dict;
      this.sequencer := sequencer;
      internalClock := clock;
      chan, seqLen, quant, prob, noteId := 9, 16 * Midi.ClocksPerBeat, 12, 0.4, 60;
      patternNoteSet := {};
    }

    /** Nothing in the sequencer or its sequences changed. */
    twostate predicate SequencesUntouched()
      reads sequencer, sequencer.seqList
    {
      unchanged(sequencer) && forall s :: s in sequencer.seqList ==> unchanged(s)
    }

    /** The effect of a numeric command: `NumericCommand` on the settings, or nothing when the argument is no integer. */
    twostate predicate NumericApplied(cmd: string, valStr: string, handled: bool)
      reads this
    {
      patternNoteSet == old(patternNoteSet) &&
      match TryParseInt(valStr)
      case None => !handled && State() == old(State())
      case Some(val) => (handled, State()) == NumericCommand(old(State()), cmd, val)
    }

    /** The effect of `ns`: the pattern notes become the parsed set, unless it is empty. */
    twostate predicate PatternNotesApplied(valStr: string, handled: bool)
      reads this
    {
      var notes := NotesOf(Fields(valStr), noteSetDict);
      State() == old(State()) && (handled <==> notes != {}) &&
      patternNoteSet == (if handled then notes else old(patternNoteSet))
    }

    /** The effect of `d`: the described sequences are gone and the others kept in order. */
    twostate predicate Deleted(valStr: string)
      reads this, sequencer, sequencer.seqList
    {
      unchanged(this) &&
      sequencer.seqList == Drop(old(sequencer.seqList), DescriptorIndexes(valStr, |old(sequencer.seqList)|)) &&
      sequencer.running == old(sequencer.running) && sequencer.tickCount == old(sequencer.tickCount) &&
      sequencer.liveNotes == old(sequencer.liveNotes) && sequencer.sent == old(sequencer.sent) &&
      sequencer.runTicks == old(sequencer.runTicks) && sequencer.ticks == old(sequencer.ticks)
    }

    /**
     * The effect of `m`, `u` and `o` on a sequencer whose list stays as it
     * was: each sequence's cursor is kept, and its flag becomes `flag(k)` for
     * its index `k` when `pick(k)`, and stays otherwise.
     */
    twostate predicate FlagsApplied(valStr: string, cmd: string)
      reads this, sequencer, sequencer.seqList
    {
      unchanged(this) && unchanged(sequencer) &&
      var ss, d := sequencer.seqList, DescriptorIndexes(valStr, |sequencer.seqList|);
      forall k :: 0 <= k < |ss| ==>
        ss[k].position == old(ss[k].position) &&
        ss[k].isEnabled == (if cmd == "o" then k in d else if k in d then cmd == "u" else old(ss[k].isEnabled))
    }

    /** `HandleCmd_Tempo`: a tempo step on the internal clock; nothing with an external one. */
    method HandleCmdTempo(increment: bool)
      requires Valid()
      modifies internalClock
      ensures Valid()
      ensures internalClock != null ==>
        internalClock.BeatsPerMin() == TempoStep(old(internalClock.BeatsPerMin()), increment) &&
        internalClock.bpm == old(internalClock.bpm) && internalClock.period == old(internalClock.period) &&
        internalClock.isDisposing == old(internalClock.isDisposing) &&
        internalClock.timerDue == old(internalClock.timerDue) &&
        internalClock.timerPeriod == old(internalClock.timerPeriod) &&
        internalClock.timerDisposed == old(internalClock.timerDisposed) &&
        internalClock.ticks == old(internalClock.ticks)
    {
      var midiClock := internalClock;
      if midiClock == null {
        return;
      }
      var bpm := Wrap32(midiClock.BeatsPerMin() + (if increment then 1 else -1));
      bpm := Clamp(bpm, 1, 360);
      midiClock.SetBeatsPerMin(bpm);
    }

    /** `HandleCmd(string)`: a non-blank line of exactly two parts with a known command goes to its handler. */
    method HandleCmd(str: string) returns (handled: bool)
      requires Valid()
      modifies this, sequencer, sequencer.seqList
      ensures Valid()
      ensures var p := CommandParts(str);
        if IsBlank(str) || |p| != 2 then !handled && unchanged(this) && SequencesUntouched()
        else Dispatched(p[0], p[1], handled)
      ensures CommandParts(str)[0] !in {"m", "u", "o"} ==> forall s :: s in old(sequencer.seqList) ==> unchanged(s)
    {
      if IsBlank(str) {
        BlankIsOnePart(str);
        return false;
      }
      var parts := SplitCommandString(str);
      if 2 != |parts| {
        return false;
      }
      handled := Dispatch(parts[0], parts[1]);
    }

    /** The `switch` of `HandleCmd(string)`: a known command goes to the handler of its kind. */
    method Dispatch(cmd: string, valStr: string) returns (handled: bool)
      requires Valid()
      modifies this, sequencer, sequencer.seqList
      ensures Valid()
      ensures Dispatched(cmd, valStr, handled)
      ensures cmd !in {"m", "u", "o"} ==> forall s :: s in old(sequencer.seqList) ==> unchanged(s)
    {
      if cmd in NumericCommands {
        handled := HandleCmdNumericState(cmd, valStr);
      } else if cmd in NonNumericCommands {
        handled := HandleCmdNonNumericState(cmd, valStr);
      } else {
        handled := false;
      }
    }

    /** The effect of a command with its argument: its handler's effect, or nothing for an unknown command. */
    twostate predicate Dispatched(cmd: string, valStr: string, handled: bool)
      reads this, sequencer, sequencer.seqList
    {
      if cmd in NumericCommands then NumericApplied(cmd, valStr, handled) && SequencesUntouched()
      else if cmd in NonNumericCommands then NonNumericApplied(cmd, valStr, handled)
      else !handled && unchanged(this) && SequencesUntouched()
    }

    /** The effect of a non-numeric command. */
    twostate predicate NonNumericApplied(cmd: string, valStr: string, handled: bool)
      reads this, sequencer, sequencer.seqList
    {
      if cmd == "ns" then PatternNotesApplied(valStr, handled) && SequencesUntouched()
      else if cmd == "d" then handled && Deleted(valStr)
      else if cmd == "m" || cmd == "u" || cmd == "o" then handled && FlagsApplied(valStr, cmd)
      else !handled && unchanged(this) && SequencesUntouched()
    }

    /** `HandleCmd_NumericState`: parses the argument and sets the command's setting when in range. */
    method HandleCmdNumericState(cmd: string, valStr: string) returns (handled: bool)
      requires Valid()
      modifies this
      ensures Valid()
      ensures NumericApplied(cmd, valStr, handled)
    {
      var parsed := TryParseInt(valStr);
      if parsed.None? {
        return false;
      }
      var val := parsed.value;
      handled := true;
      if cmd == "c" {
        if IsInRange(val, 1, 17) {
          chan := val - 1;
        }
      } else if cmd == "lc" {
        if IsInRange(val, 0, 100000) {
          seqLen := val;
        } else {
          handled := false;
        }
      } else if cmd == "lb" {
        if IsInRange(val, 0, 100000) {
          seqLen := val * Midi.ClocksPerBeat;
        }
      } else if cmd == "q" {
        if IsInRange(val, 1, 25) {
          quant := val;
        }
      } else if cmd == "n" {
        if IsInRange(val, 0, 128) {
          noteId := val;
        }
      } else if cmd == "p" {
        if IsInRange(val, 1, 1000) {
          prob := Inverse(val);
        }
      } else {
        handled := false;
      }
      SettingsEditKeepsValid(this);
    }

    /** `HandleCmd_NonNumericState`: pattern notes, delete, mute, unmute and solo. */
    method HandleCmdNonNumericState(cmd: string, valStr: string) returns (handled: bool)
      requires Valid()
      modifies this, sequencer, sequencer.seqList
      ensures Valid()
      ensures NonNumericApplied(cmd, valStr, handled)
      ensures cmd !in {"m", "u", "o"} ==> forall s :: s in old(sequencer.seqList) ==> unchanged(s)
    {
      if cmd == "ns" {
        handled := AssignPatternNotes(valStr);
      } else if cmd == "d" {
        DeleteSequences(valStr);
        handled := true;
      } else if cmd == "m" || cmd == "u" {
        SetEnabled(valStr, cmd == "u");
        handled := true;
      } else if cmd == "o" {
        Solo(valStr);
        handled := true;
      } else {
        handled := false;
      }
    }

    /** `ns`: the parsed notes replace the pattern notes, unless there are none. */
    method AssignPatternNotes(valStr: string) returns (handled: bool)
      requires Valid()
      modifies this
      ensures Valid()
      ensures PatternNotesApplied(valStr, handled)
    {
      var noteIdSet := ParsePatternNotesDescriptor(valStr, noteSetDict);
      if |noteIdSet| == 0 {
        return false;
      }
      PatternNotesInRange(Fields(valStr), noteSetDict);
      patternNoteSet := noteIdSet;
      SettingsEditKeepsValid(this);
      return true;
    }

    /** `d`: removes the described sequences, from the highest index down. */
    method DeleteSequences(valStr: string)
      requires Valid()
      modifies sequencer
      ensures Valid()
      ensures Deleted(valStr)
    {
      ghost var list := sequencer.seqList;
      var idxArr := ParseSequenceDescriptorAsArray(valStr, |sequencer.seqList|);
      RemoveEach(sequencer, idxArr);
      assert Members(idxArr) == DescriptorIndexes(valStr, |list|);
      ListEditKeepsValid(this);
    }

    /** `m` and `u`: sets the enabled flag of the described sequences, from the highest index down. */
    method SetEnabled(valStr: string, isEnabled: bool)
      requires Valid()
      modifies sequencer.seqList
      ensures Valid()
      ensures FlagsApplied(valStr, if isEnabled then "u" else "m")
    {
      var ss := sequencer.seqList;
      var idxArr := ParseSequenceDescriptorAsArray(valStr, |ss|);
      EnableAt(ss, idxArr, isEnabled);
      FlagsKeepSequencesOk(ss);
      ListEditKeepsValid(this);
    }

    /** `o`: enables exactly the described sequences. */
    method Solo(valStr: string)
      requires Valid()
      modifies sequencer.seqList
      ensures Valid()
      ensures FlagsApplied(valStr, "o")
    {
      var ss := sequencer.seqList;
      var idxSet := ParseSequenceDescriptor(valStr, |ss|);
      EnableExactly(ss, idxSet);
      FlagsKeepSequencesOk(ss);
      ListEditKeepsValid(this);
    }
  }
}
