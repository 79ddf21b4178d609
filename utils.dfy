/**
 * The drummer's descriptor parsers and note-list formatter (`Utils`):
 * sequence-index descriptors such as "0,2,5-7", pattern-note descriptors
 * such as "60, nordrum2", and a set of note ids as ascending space-separated
 * numbers.
 *
 * Each parser is a loop over the comma-separated fields, specified by a
 * function of the input: the union of what every field contributes.
 */
module DrummerUtils {
  import opened Common
  import opened Text

  // ---------------------------------------------------------------- specification

  /** Every integer from `a` to `b`. */
  function Range(a: int, b: int): (r: set<int>)
    ensures forall i :: i in r <==> a <= i <= b
    decreases b - a
  {
    if a > b then {} else Range(a, b - 1) + {b}
  }

  /** The comma-separated fields of a descriptor, after lowering its case. */
  function Fields(desc: string): seq<string> {
    Split(Lower(desc), ',')
  }

  /**
   * What one field of a sequence descriptor contributes before the range
   * filter: the integer it spells, or every integer of an ascending range
   * "a-b"; nothing for anything else.
   */
  function FieldIndexes(field: string): set<int> {
    var str := Trim(field, WhiteSpace);
    var single := TryParseInt(str);
    if single.Some? then {single.value} else RangeIndexesOf(Split(str, '-'))
  }

  /** The range a field split at its '-' stands for: both ends must parse, in order. */
  function RangeIndexesOf(x: seq<string>): set<int> {
    if |x| != 2 then {} else Between(TryParseInt(x[0]), TryParseInt(x[1]))
  }

  function Between(lo: Option<int>, hi: Option<int>): set<int> {
    if lo.None? || hi.None? || lo.value > hi.value then {} else Range(lo.value, hi.value)
  }

  /** The union of the fields' contributions. */
  function UnionOf(fields: seq<string>): set<int>
    decreases |fields|
  {
    if fields == [] then {} else UnionOf(fields[..|fields| - 1]) + FieldIndexes(fields[|fields| - 1])
  }

  /** The indexes a sequence descriptor selects among `seqCount` sequences. */
  function DescriptorIndexes(desc: string, seqCount: int): set<int> {
    set i | i in UnionOf(Fields(desc)) && 0 <= i < seqCount
  }

  /**
   * What one field of a pattern-note descriptor contributes: the note id it
   * spells if that is in 0..127, or else the notes of the note set it names.
   */
  function FieldNotes(field: string, noteSets: map<string, seq<int>>): set<int> {
    var str := Trim(field, WhiteSpace);
    NotesFor(str, TryParseInt(str), noteSets)
  }

  /** The notes of a trimmed field, given what it parses as. */
  function NotesFor(str: string, noteId: Option<int>, noteSets: map<string, seq<int>>): set<int> {
    if noteId.Some? then (if 0 <= noteId.value <= 127 then {noteId.value} else {})
    else if str in noteSets then Members(noteSets[str])
    else {}
  }

  /** The notes of a note set. */
  function Members(notes: seq<int>): set<int> {
    set x | x in notes
  }

  function NotesOf(fields: seq<string>, noteSets: map<string, seq<int>>): set<int>
    decreases |fields|
  {
    if fields == [] then {}
    else NotesOf(fields[..|fields| - 1], noteSets) + FieldNotes(fields[|fields| - 1], noteSets)
  }

  predicate StrictlyAscending(xs: seq<int>) {
    forall i, j :: 0 <= i < j < |xs| ==> xs[i] < xs[j]
  }

  /** A non-empty set has an element. */
  lemma HasElement(s: set<int>)
    requires s != {}
    ensures exists x :: x in s
  {
    if !(exists x :: x in s) {
      assert false;
    }
  }

  /** A finite non-empty set of integers has a least element. */
  lemma {:induction false} LeastOf(s: set<int>) returns (least: int)
    requires s != {}
    ensures least in s && forall x :: x in s ==> least <= x
    decreases |s|
  {
    HasElement(s);
    var y :| y in s;
    if s != {y} {
      var m := LeastOf(s - {y});
      least := if y < m then y else m;
      forall x | x in s
        ensures least <= x
      {
        if x != y {
          assert x in s - {y};
        }
      }
    } else {
      least := y;
      assert forall x :: x in s ==> y <= x;
    }
  }

  lemma MinExists(s: set<int>)
    requires s != {}
    ensures exists m :: m in s && forall x :: x in s ==> m <= x
  {
    var m := LeastOf(s);
  }

  ghost function Min(s: set<int>): (m: int)
    requires s != {}
    ensures m in s && forall x :: x in s ==> m <= x
  {
    MinExists(s);
    var m :| m in s && forall x :: x in s ==> m <= x; m
  }

  /** The elements of a finite set of integers in ascending order. */
  ghost function Ascending(s: set<int>): (r: seq<int>)
    ensures StrictlyAscending(r)
    ensures forall x :: x in r <==> x in s
    ensures |r| == |s|
    decreases |s|
  {
    if s == {} then []
    else
      var m := Min(s);
      var rest := Ascending(s - {m});
      assert forall x :: x in rest ==> m < x;
      [m] + rest
  }

  /** The decimal form of each number. */
  function Decimals(xs: seq<int>): (r: seq<string>)
    ensures |r| == |xs|
    ensures forall k :: 0 <= k < |xs| ==> r[k] == IntToString(xs[k])
  {
    seq(|xs|, k requires 0 <= k < |xs| => IntToString(xs[k]))
  }

  /** Numbers in decimal, separated by single spaces; the empty string for none. */
  function Spaced(xs: seq<int>): string {
    if xs == [] then "" else Join(Decimals(xs), ' ')
  }

  // ---------------------------------------------------------------- the loops

  /**
   * The range loop `for (i = a; i <= b; i++) idxSet.Add(i)`, on unbounded
   * integers: adds every integer from `a` to `b`.
   */
  method AddRange(s: set<int>, a: int, b: int) returns (r: set<int>)
    requires a <= b
    ensures r == s + Range(a, b)
  {
    r := s;
    var i := a;
    while i <= b
      invariant a <= i <= b + 1
      invariant r == s + Range(a, i - 1)
      decreases b - i
    {
      r := r + {i};
      i := i + 1;
    }
  }

  /**
   * `ParseSequenceDescriptor`: adds each field's integer or ascending range
   * to a set, then collects the indexes outside `0..seqCount-1` in a list and
   * removes them. The result is exactly the in-range part of the union of
   * the fields' contributions.
   */
  method ParseSequenceDescriptor(desc: string, seqCount: int) returns (idxSet: set<int>)
    ensures idxSet == DescriptorIndexes(desc, seqCount)
    ensures forall i :: i in idxSet ==> 0 <= i < seqCount
  {
    idxSet := {};
    var fields := Fields(desc);
    for k := 0 to |fields|
      invariant idxSet == UnionOf(fields[..k])
    {
      UnionOfSnoc(fields, k);
      idxSet := AddFieldIndexes(idxSet, fields[k]);
    }
    assert fields[..|fields|] == fields;
    idxSet := RemoveOutOfRange(idxSet, seqCount);
  }

  /**
   * The body of the field loop of `ParseSequenceDescriptor`: adds the integer
   * the trimmed field spells, or else the integers of its range "a-b"; a
   * field that is neither adds nothing (each `continue`).
   */
  method AddFieldIndexes(idxSet: set<int>, field: string) returns (r: set<int>)
    ensures r == idxSet + FieldIndexes(field)
  {
    var str := Trim(field, WhiteSpace);
    var idx := TryParseInt(str);
    if idx.Some? {
      return idxSet + {idx.value};
    }
    var x := Split(str, '-');
    assert FieldIndexes(field) == RangeIndexesOf(x);
    if |x| != 2 {
      return idxSet;
    }
    var lo, hi := TryParseInt(x[0]), TryParseInt(x[1]);
    assert RangeIndexesOf(x) == Between(lo, hi);
    if lo.None? || hi.None? || lo.value > hi.value {
      return idxSet;
    }
    r := AddRange(idxSet, lo.value, hi.value);
  }

  /**
   * The second half of `ParseSequenceDescriptor`: lists the indexes outside
   * `0..seqCount-1`, then removes each listed index.
   */
  method RemoveOutOfRange(all: set<int>, seqCount: int) returns (idxSet: set<int>)
    ensures idxSet == set i | i in all && 0 <= i < seqCount
  {
    idxSet := all;
    var removeList: seq<int> := [];
    var pending := idxSet;
    while pending != {}
      invariant pending <= idxSet
      invariant forall i :: i in removeList <==> i in idxSet - pending && (i < 0 || i >= seqCount)
      decreases |pending|
    {
      HasElement(pending);
      var idx :| idx in pending;
      if idx < 0 || idx >= seqCount {
        removeList := removeList + [idx];
      }
      pending := pending - {idx};
    }
    ghost var removed: set<int> := {};
    for k := 0 to |removeList|
      invariant idxSet == all - removed
      invariant forall i :: i in removed ==> i in removeList
      invariant forall j :: 0 <= j < k ==> removeList[j] in removed
    {
      idxSet := idxSet - {removeList[k]};
      removed := removed + {removeList[k]};
    }
    forall i | i in removeList
      ensures i in removed
    {
      var j :| 0 <= j < |removeList| && removeList[j] == i;
    }
  }

  /** Sorts the elements of a set: `ToArray` followed by `Array.Sort`. */
  method SortedElements(s: set<int>) returns (arr: seq<int>)
    ensures arr == Ascending(s)
  {
    arr := [];
    var rest := s;
    while rest != {}
      invariant rest <= s
      invariant arr + Ascending(rest) == Ascending(s)
      decreases |rest|
    {
      MinExists(rest);
      var m :| m in rest && forall x :: x in rest ==> m <= x;
      AscendingStep(rest, m);
      AppendAssoc(arr, [m], Ascending(rest - {m}));
      arr := arr + [m];
      rest := rest - {m};
    }
    assert arr + [] == arr;
  }

  /** The least element comes first, followed by the others in order. */
  lemma AscendingStep(s: set<int>, m: int)
    requires m in s && forall x :: x in s ==> m <= x
    ensures Ascending(s) == [m] + Ascending(s - {m})
  {
    assert m == Min(s);
  }

  /**
   * `ParseSequenceDescriptorAsArray`: the selected indexes, strictly
   * ascending, each in `0..seqCount-1`.
   */
  method ParseSequenceDescriptorAsArray(desc: string, seqCount: int) returns (arr: seq<int>)
    ensures StrictlyAscending(arr)
    ensures forall i :: i in arr <==> i in DescriptorIndexes(desc, seqCount)
    ensures forall k :: 0 <= k < |arr| ==> 0 <= arr[k] < seqCount
  {
    var idxSet := ParseSequenceDescriptor(desc, seqCount);
    arr := SortedElements(idxSet);
    forall k | 0 <= k < |arr|
      ensures 0 <= arr[k] < seqCount
    {
      assert arr[k] in idxSet;
    }
  }

  /**
   * `ParsePatternNotesDescriptor`: the union of the fields' note ids in
   * 0..127 and of the note sets they name (names are looked up lower-cased).
   */
  method ParsePatternNotesDescriptor(desc: string, noteSets: map<string, seq<int>>) returns (notes: set<int>)
    ensures notes == NotesOf(Fields(desc), noteSets)
  {
    notes := {};
    var fields := Fields(desc);
    for k := 0 to |fields|
      invariant notes == NotesOf(fields[..k], noteSets)
    {
      NotesOfSnoc(fields, k, noteSets);
      notes := AddFieldNotes(notes, fields[k], noteSets);
    }
    assert fields[..|fields|] == fields;
  }

  /**
   * The body of the field loop of `ParsePatternNotesDescriptor`: adds the
   * note id the trimmed field spells if it is in 0..127, or else the notes
   * of the note set it names.
   */
  method AddFieldNotes(notes: set<int>, field: string, noteSets: map<string, seq<int>>) returns (r: set<int>)
    ensures r == notes + FieldNotes(field, noteSets)
  {
    var str := Trim(field, WhiteSpace);
    var noteId := TryParseInt(str);
    assert FieldNotes(field, noteSets) == NotesFor(str, noteId, noteSets);
    if noteId.Some? {
      if 0 <= noteId.value <= 127 {
        return notes + {noteId.value};
      }
      return notes;
    }
    r := notes;
    if str in noteSets {
      r := r + Members(noteSets[str]);
    }
  }

  /**
   * `ToString(HashSet<int>)`: the ids in ascending order, the first one
   * alone and each later one after a space.
   */
  method ToString(noteIdSet: set<int>) returns (r: string)
    ensures r == Spaced(Ascending(noteIdSet))
  {
    var list := SortedElements(noteIdSet);
    r := "";
    if |list| != 0 {
      r := IntToString(list[0]);
      assert Decimals(list[..1]) == [r];
    }
    var i := 1;
    while i < |list|
      invariant 1 <= i && (|list| != 0 ==> i <= |list|)
      invariant |list| != 0 ==> r == Join(Decimals(list[..i]), ' ')
      invariant |list| == 0 ==> r == ""
    {
      JoinSnoc(Decimals(list[..i]), IntToString(list[i]), ' ');
      DecimalsSnoc(list, i);
      r := r + " " + IntToString(list[i]);
      i := i + 1;
    }
    if |list| != 0 {
      assert list[..|list|] == list;
      assert r == Spaced(list);
    } else {
      assert list == [];
    }
  }

  lemma DecimalsSnoc(xs: seq<int>, i: int)
    requires 0 <= i < |xs|
    ensures Decimals(xs[..i + 1]) == Decimals(xs[..i]) + [IntToString(xs[i])]
  {
    var a, b := Decimals(xs[..i + 1]), Decimals(xs[..i]) + [IntToString(xs[i])];
    assert forall k :: 0 <= k < |a| ==> a[k] == b[k];
  }

  // ---------------------------------------------------------------- properties

  lemma {:induction false} JoinSnoc(parts: seq<string>, p: string, sep: char)
    requires parts != []
    ensures Join(parts + [p], sep) == Join(parts, sep) + [sep] + p
    decreases |parts|
  {
    if |parts| > 1 {
      assert (parts + [p])[1..] == parts[1..] + [p];
      JoinSnoc(parts[1..], p, sep);
    }
  }

  lemma {:induction false} JoinAppend(a: seq<string>, b: seq<string>, sep: char)
    requires a != [] && b != []
    ensures Join(a + b, sep) == Join(a, sep) + [sep] + Join(b, sep)
    decreases |a|
  {
    if |a| > 1 {
      assert (a + b)[1..] == a[1..] + b;
      JoinAppend(a[1..], b, sep);
    } else {
      assert (a + b)[1..] == b;
    }
  }

  lemma LowerAppend(a: string, b: string)
    ensures Lower(a + b) == Lower(a) + Lower(b)
  {
  }

  lemma UnionOfSnoc(fields: seq<string>, k: int)
    requires 0 <= k < |fields|
    ensures UnionOf(fields[..k + 1]) == UnionOf(fields[..k]) + FieldIndexes(fields[k])
  {
    assert fields[..k + 1][..k] == fields[..k];
  }

  lemma NotesOfSnoc(fields: seq<string>, k: int, noteSets: map<string, seq<int>>)
    requires 0 <= k < |fields|
    ensures NotesOf(fields[..k + 1], noteSets) == NotesOf(fields[..k], noteSets) + FieldNotes(fields[k], noteSets)
  {
    assert fields[..k + 1][..k] == fields[..k];
  }

  lemma {:induction false} UnionOfAppend(a: seq<string>, b: seq<string>)
    ensures UnionOf(a + b) == UnionOf(a) + UnionOf(b)
    decreases |b|
  {
    if b != [] {
      assert (a + b)[..|a + b| - 1] == a + b[..|b| - 1];
      UnionOfAppend(a, b[..|b| - 1]);
    } else {
      assert a + b == a;
    }
  }

  /** A descriptor "d1,d2" selects what `d1` selects together with what `d2` selects. */
  lemma DescriptorUnion(d1: string, d2: string, seqCount: int)
    ensures DescriptorIndexes(d1 + "," + d2, seqCount) ==
            DescriptorIndexes(d1, seqCount) + DescriptorIndexes(d2, seqCount)
  {
    var f1, f2 := Fields(d1), Fields(d2);
    assert Lower(d1 + "," + d2) == Lower(d1) + [','] + Lower(d2) by {
      LowerAppend(d1 + ",", d2);
      LowerAppend(d1, ",");
    }
    JoinAppend(f1, f2, ',');
    assert Join(f1 + f2, ',') == Lower(d1 + "," + d2);
    SplitJoin(f1 + f2, ',');
    assert Fields(d1 + "," + d2) == f1 + f2;
    UnionOfAppend(f1, f2);
  }

  /** A descriptor without commas or upper-case letters is one field, kept in range. */
  lemma OneField(s: string, seqCount: int)
    requires forall i :: 0 <= i < |s| ==> s[i] != ',' && !('A' <= s[i] <= 'Z')
    ensures DescriptorIndexes(s, seqCount) == FieldIndexes(s) * Range(0, seqCount - 1)
  {
    LowerKeeps(s);
    assert ',' !in s;
    assert Fields(s) == [s];
    assert UnionOf([s]) == UnionOf([]) + FieldIndexes(s);
  }

  /** The decimal form of a 32-bit integer, as a field, stands for that integer. */
  lemma SingleField(k: int)
    requires IsInt32(k)
    ensures FieldIndexes(IntToString(k)) == {k}
  {
    var s := IntToString(k);
    TrimKeeps(s, WhiteSpace);
    IntToStringParses(k);
  }

  /** The decimal form of an in-range index selects that index alone. */
  lemma SingleIndex(k: int, seqCount: int)
    requires 0 <= k < seqCount && IsInt32(k)
    ensures DescriptorIndexes(IntToString(k), seqCount) == {k}
  {
    var s := IntToString(k);
    assert forall i :: 0 <= i < |s| ==> IsDigit(s[i]);
    OneField(s, seqCount);
    SingleField(k);
    assert k in Range(0, seqCount - 1);
  }

  /** The field "a-b" for non-negative `a <= b` stands for the integers from `a` to `b`. */
  lemma RangeField(a: int, b: int)
    requires 0 <= a <= b && IsInt32(b)
    ensures FieldIndexes(IntToString(a) + "-" + IntToString(b)) == Range(a, b)
  {
    var x, y := IntToString(a), IntToString(b);
    var s := x + "-" + y;
    assert s[0] == x[0] && s[|s| - 1] == y[|y| - 1];
    TrimKeeps(s, WhiteSpace);
    IntToStringOmits(a, '-');
    IntToStringOmits(b, '-');
    RangeIsNoInteger(x, y);
    RangeSplits(x, y);
    IntToStringParses(a);
    IntToStringParses(b);
    assert RangeIndexesOf([x, y]) == Range(a, b);
  }

  /** Splitting "x-y" at its '-' gives `x` and `y` back when neither holds a '-'. */
  lemma RangeSplits(x: string, y: string)
    requires '-' !in x && '-' !in y
    ensures Split(x + "-" + y, '-') == [x, y]
  {
    assert Join([x, y], '-') == x + "-" + y;
    SplitJoin([x, y], '-');
  }

  /** Digits, a '-' and digits do not parse as one integer. */
  lemma RangeIsNoInteger(x: string, y: string)
    requires x != [] && AllDigits(x) && y != [] && AllDigits(y)
    ensures TryParseInt(x + "-" + y) == None
  {
    var s := x + "-" + y;
    assert s[0] == x[0] && s[|s| - 1] == y[|y| - 1];
    TrimKeeps(s, ParseWhite);
    assert !IsDigit(s[|x|]);
  }

  /** "a-b" for non-negative `a <= b` selects the in-range integers from `a` to `b`. */
  lemma RangeIndexes(a: int, b: int, seqCount: int)
    requires 0 <= a <= b && IsInt32(b)
    ensures DescriptorIndexes(IntToString(a) + "-" + IntToString(b), seqCount) ==
            Range(a, b) * Range(0, seqCount - 1)
  {
    var x, y := IntToString(a), IntToString(b);
    var s := x + "-" + y;
    forall i | 0 <= i < |s|
      ensures s[i] != ',' && !('A' <= s[i] <= 'Z')
    {
      if i < |x| {
        assert s[i] == x[i];
      } else if |x| < i {
        assert s[i] == y[i - |x| - 1];
      }
    }
    OneField(s, seqCount);
    RangeField(a, b);
  }

  /**
   * The notes a pattern-note descriptor yields are MIDI note ids whenever the
   * named note sets hold only MIDI note ids.
   */
  lemma {:induction false} PatternNotesInRange(fields: seq<string>, noteSets: map<string, seq<int>>)
    requires forall name, n :: name in noteSets && n in noteSets[name] ==> 0 <= n <= 127
    ensures forall n :: n in NotesOf(fields, noteSets) ==> 0 <= n <= 127
    decreases |fields|
  {
    if fields != [] {
      PatternNotesInRange(fields[..|fields| - 1], noteSets);
      FieldNotesInRange(fields[|fields| - 1], noteSets);
    }
  }

  lemma FieldNotesInRange(field: string, noteSets: map<string, seq<int>>)
    requires forall name, n :: name in noteSets && n in noteSets[name] ==> 0 <= n <= 127
    ensures forall n :: n in FieldNotes(field, noteSets) ==> 0 <= n <= 127
  {
  }

  /**
   * The formatted set splits at the spaces into the ascending ids' decimal
   * forms, each of which parses back to its id; nothing is printed for no ids.
   */
  lemma SpacedParses(s: set<int>)
    requires forall x :: x in s ==> IsInt32(x)
    ensures Spaced(Ascending(s)) == "" <==> s == {}
    ensures s != {} ==> Split(Spaced(Ascending(s)), ' ') == Decimals(Ascending(s))
    ensures s != {} ==> forall k :: 0 <= k < |s| ==>
              TryParseInt(Split(Spaced(Ascending(s)), ' ')[k]) == Some(Ascending(s)[k])
  {
    var xs := Ascending(s);
    if s != {} {
      var ds := Decimals(xs);
      forall k | 0 <= k < |ds|
        ensures ' ' !in ds[k]
      {
        IntToStringOmits(xs[k], ' ');
      }
      SplitJoin(ds, ' ');
      forall k | 0 <= k < |s|
        ensures TryParseInt(ds[k]) == Some(xs[k])
      {
        var x := xs[k];
        assert x in xs;
        IntToStringParses(x);
      }
      JoinNonEmpty(ds, ' ');
    }
  }

  lemma JoinNonEmpty(parts: seq<string>, sep: char)
    requires parts != [] && parts[0] != []
    ensures Join(parts, sep) != []
  {
  }

  // ---------------------------------------------------------------- the range loop as written

  /**
   * The source's range loop as written, with a 32-bit `int` counter, run for
   * at most `fuel` iterations from counter value `i`: the set it has built
   * once `i <= b` fails, or `None` if it is still looping.
   */
  function RangeLoopAsWritten(s: set<int>, i: int, b: int, fuel: nat): Option<set<int>>
    decreases fuel
  {
    if !(i <= b) then Some(s)
    else if fuel == 0 then None
    else RangeLoopAsWritten(s + {i}, Wrap32(i + 1), b, fuel - 1)
  }

  /**
   * With `b == int.MaxValue` the loop never ends: the counter wraps from
   * `int.MaxValue` to `int.MinValue`, so `i <= b` always holds and no
   * number of iterations suffices.
   */
  lemma {:induction false} RangeLoopSpinsAtMax(s: set<int>, i: int, fuel: nat)
    requires IsInt32(i)
    ensures RangeLoopAsWritten(s, i, Int32Max, fuel) == None
    decreases fuel
  {
    if fuel > 0 {
      RangeLoopSpinsAtMax(s + {i}, Wrap32(i + 1), fuel - 1);
    }
  }

  /**
   * The loop as written for the field "2147483647-2147483647" (which
   * `TopRangeField` shows stands for `int.MaxValue` alone): having added
   * `int.MaxValue`, its counter wraps to `int.MinValue` and it goes on, so
   * it has not ended after any number of turns.
   */
  lemma MaxFieldWraps(s: set<int>, fuel: nat)
    ensures RangeLoopAsWritten(s, Int32Max, Int32Max, fuel + 1) ==
            RangeLoopAsWritten(s + {Int32Max}, Int32Min, Int32Max, fuel)
    ensures RangeLoopAsWritten(s, Int32Max, Int32Max, fuel + 1) == None
  {
    assert Wrap32(Int32Max + 1) == Int32Min;
    RangeLoopSpinsAtMax(s + {Int32Max}, Int32Min, fuel);
  }

  /** The field "b-b" stands for `b` alone. */
  lemma TopRangeField(b: int)
    requires 0 <= b && IsInt32(b)
    ensures FieldIndexes(IntToString(b) + "-" + IntToString(b)) == {b}
  {
    RangeField(b, b);
    assert Range(b, b) == {b};
  }

  /** Below `int.MaxValue` the loop as written ends after `b - a + 1` turns with the range added. */
  lemma {:induction false} RangeLoopBelowMax(s: set<int>, a: int, i: int, b: int)
    requires IsInt32(a) && a <= i <= b + 1 && b < Int32Max
    ensures RangeLoopAsWritten(s + Range(a, i - 1), i, b, b - i + 1) == Some(s + Range(a, b))
    decreases b - i + 1
  {
    if i <= b {
      assert Wrap32(i + 1) == i + 1;
      assert s + Range(a, i - 1) + {i} == s + Range(a, i);
      RangeLoopBelowMax(s, a, i + 1, b);
    } else {
      assert Range(a, i - 1) == Range(a, b);
    }
  }
}
