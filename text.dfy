/**
 * The .NET string operations the drummer's command parsing relies on:
 * `ToLowerInvariant`, `Trim`, `Split`, `int.TryParse` and `int.ToString`,
 * on strings of Unicode scalar values (C# strings hold UTF-16 code units).
 */
module Text {
  import opened Common

  // ---------------------------------------------------------------- case

  /** `char.ToLowerInvariant` on the ASCII letters. */
  function LowerChar(c: char): char {
    if 'A' <= c <= 'Z' then (c as int - 'A' as int + 'a' as int) as char else c
  }

  /** `ToLowerInvariant`: upper-case ASCII letters become lower-case, every other character is kept. */
  function Lower(s: string): (r: string)
    ensures |r| == |s|
    ensures forall i :: 0 <= i < |r| ==> !('A' <= r[i] <= 'Z')
    ensures forall i :: 0 <= i < |r| ==> ('A' <= s[i] <= 'Z' <==> r[i] != s[i])
  {
    seq(|s|, i requires 0 <= i < |s| => LowerChar(s[i]))
  }

  /** A string without upper-case ASCII letters is its own lower case. */
  lemma LowerKeeps(s: string)
    requires forall i :: 0 <= i < |s| ==> !('A' <= s[i] <= 'Z')
    ensures Lower(s) == s
  {
    var r := Lower(s);
    assert forall i :: 0 <= i < |s| ==> r[i] == s[i];
  }

  // ---------------------------------------------------------------- trimming

  /**
   * `char.IsWhiteSpace`: the Unicode space, line and paragraph separators and
   * the controls U+0009 to U+000D and U+0085.
   */
  predicate IsWhiteSpace(c: char) {
    '\t' <= c <= '\r' || c == ' ' || c == '\U{85}' || c == '\U{A0}' || c == '\U{1680}' ||
    '\U{2000}' <= c <= '\U{200A}' || c == '\U{2028}' || c == '\U{2029}' || c == '\U{202F}' ||
    c == '\U{205F}' || c == '\U{3000}'
  }

  /** The characters `Trim()` drops. */
  const WhiteSpace: set<char> := set c: char | '\0' <= c <= '\U{3000}' && IsWhiteSpace(c)

  /** Drops the leading characters that are in `cs`. */
  function TrimStart(s: string, cs: set<char>): string
    decreases |s|
  {
    if s != [] && s[0] in cs then TrimStart(s[1..], cs) else s
  }

  /** Drops the trailing characters that are in `cs`. */
  function TrimEnd(s: string, cs: set<char>): string
    decreases |s|
  {
    if s != [] && s[|s| - 1] in cs then TrimEnd(s[..|s| - 1], cs) else s
  }

  /** What `TrimStart` drops is a prefix of characters in `cs`, and what it keeps does not start with one. */
  lemma {:induction false} TrimStartShape(s: string, cs: set<char>)
    ensures var r := TrimStart(s, cs);
      |r| <= |s| && r == s[|s| - |r|..] &&
      (forall i :: 0 <= i < |s| - |r| ==> s[i] in cs) &&
      (r != [] ==> r[0] !in cs)
    decreases |s|
  {
    if s != [] && s[0] in cs {
      TrimStartShape(s[1..], cs);
    }
  }

  /** What `TrimEnd` drops is a suffix of characters in `cs`, and what it keeps does not end with one. */
  lemma {:induction false} TrimEndShape(s: string, cs: set<char>)
    ensures var r := TrimEnd(s, cs);
      |r| <= |s| && r == s[..|r|] &&
      (forall i :: |r| <= i < |s| ==> s[i] in cs) &&
      (r != [] ==> r[|r| - 1] !in cs)
    decreases |s|
  {
    if s != [] && s[|s| - 1] in cs {
      TrimEndShape(s[..|s| - 1], cs);
    }
  }

  /**
   * `Trim(cs)` (and `Trim()` with `cs` the white space): drops the characters
   * in `cs` from both ends. Nothing is left exactly when every character is
   * in `cs`.
   */
  function Trim(s: string, cs: set<char>): string {
    TrimEnd(TrimStart(s, cs), cs)
  }

  /** Nothing at either end of the trim is in `cs`, and nothing is left exactly when every character is in `cs`. */
  lemma TrimShape(s: string, cs: set<char>)
    ensures var r := Trim(s, cs);
      (r != [] ==> r[0] !in cs && r[|r| - 1] !in cs) &&
      (r == [] <==> forall i :: 0 <= i < |s| ==> s[i] in cs)
  {
    var t := TrimStart(s, cs);
    var r := TrimEnd(t, cs);
    TrimStartShape(s, cs);
    TrimEndShape(t, cs);
    assert r != [] ==> r[0] == t[0];
    assert t != [] ==> t[0] == s[|s| - |t|];
  }

  /** A string that neither starts nor ends with a character of `cs` is its own trim. */
  lemma TrimKeeps(s: string, cs: set<char>)
    requires s != [] ==> s[0] !in cs && s[|s| - 1] !in cs
    ensures Trim(s, cs) == s
  {
    assert TrimStart(s, cs) == s;
    assert TrimEnd(s, cs) == s;
  }

  // ---------------------------------------------------------------- splitting

  /** The first position of `c` in `s`. */
  function IndexOf(s: string, c: char): (i: nat)
    requires c in s
    ensures i < |s| && s[i] == c && c !in s[..i]
  {
    if s[0] == c then 0 else 1 + IndexOf(s[1..], c)
  }

  /** Fields glued together with `sep` between neighbours. */
  function Join(parts: seq<string>, sep: char): string
    requires parts != []
    decreases |parts|
  {
    if |parts| == 1 then parts[0] else parts[0] + [sep] + Join(parts[1..], sep)
  }

  /**
   * `Split(sep)`: the fields between the separators, empty ones included.
   * No field holds the separator, and joining the fields gives the string back.
   */
  function Split(s: string, sep: char): (parts: seq<string>)
    ensures parts != []
    ensures forall k :: 0 <= k < |parts| ==> sep !in parts[k]
    ensures Join(parts, sep) == s
    decreases |s|
  {
    if sep !in s then [s]
    else
      var i := IndexOf(s, sep);
      var rest := Split(s[i + 1..], sep);
      assert s == s[..i] + [sep] + s[i + 1..];
      [s[..i]] + rest
  }

  /** Splitting a join of separator-free fields gives the fields back. */
  lemma {:induction false} SplitJoin(parts: seq<string>, sep: char)
    requires parts != [] && forall k :: 0 <= k < |parts| ==> sep !in parts[k]
    ensures Split(Join(parts, sep), sep) == parts
    decreases |parts|
  {
    if |parts| > 1 {
      var p, s := parts[0], Join(parts, sep);
      var rest := Join(parts[1..], sep);
      assert s == p + [sep] + rest;
      assert s[|p|] == sep;
      var i := IndexOf(s, sep);
      assert i == |p| by {
        assert s[..|p|] == p;
      }
      assert s[..i] == p && s[i + 1..] == rest;
      SplitJoin(parts[1..], sep);
      assert [p] + parts[1..] == parts;
    } else {
      assert sep !in parts[0];
    }
  }

  // ---------------------------------------------------------------- integers

  /** The white space `int.TryParse` allows around a number: U+0009 to U+000D and the space. */
  const ParseWhite: set<char> := set c: char | '\t' <= c <= ' ' && ('\t' <= c <= '\r' || c == ' ')

  predicate IsDigit(c: char) {
    '0' <= c <= '9'
  }

  predicate AllDigits(s: string) {
    forall i :: 0 <= i < |s| ==> IsDigit(s[i])
  }

  /** The value of a string of decimal digits, most significant first. */
  function DigitsValue(s: string): nat
    requires AllDigits(s)
    decreases |s|
  {
    if s == [] then 0 else DigitsValue(s[..|s| - 1]) * 10 + (s[|s| - 1] as int - '0' as int)
  }

  /**
   * `int.TryParse` with the integer number style and the invariant culture:
   * optional white space around an optional sign and one or more decimal
   * digits, whose value must fit in 32 bits.
   */
  function TryParseInt(s: string): (r: Option<int>)
    ensures r.Some? ==> IsInt32(r.value)
  {
    var t := Trim(s, ParseWhite);
    var signed := t != [] && (t[0] == '-' || t[0] == '+');
    var digits := if signed then t[1..] else t;
    if digits == [] || !AllDigits(digits) then None
    else
      var v: int := if t[0] == '-' then -(DigitsValue(digits) as int) else DigitsValue(digits);
      if !IsInt32(v) then None else Some(v)
  }

  /** Only a string holding a decimal digit parses. */
  lemma ParsedHasDigit(s: string)
    ensures TryParseInt(s).Some? ==> exists i :: 0 <= i < |s| && IsDigit(s[i])
  {
    if TryParseInt(s).Some? {
      var t := Trim(s, ParseWhite);
      var digits := if t[0] == '-' || t[0] == '+' then t[1..] else t;
      TrimmedIsInfix(s, ParseWhite);
      assert digits[0] in t;
    }
  }

  /** Every character of the trim is a character of the string. */
  lemma TrimmedIsInfix(s: string, cs: set<char>)
    ensures forall c :: c in Trim(s, cs) ==> c in s
  {
    var t := TrimStart(s, cs);
    TrimStartShape(s, cs);
    TrimEndShape(t, cs);
    assert forall c :: c in t ==> c in s;
    assert forall c :: c in TrimEnd(t, cs) ==> c in t;
  }

  function DigitChar(d: int): char
    requires 0 <= d < 10
  {
    (d + '0' as int) as char
  }

  /** The decimal digits of `n`, without leading zeros. */
  function NatToString(n: nat): (r: string)
    ensures r != [] && AllDigits(r) && DigitsValue(r) == n
    ensures |r| > 1 ==> r[0] != '0'
    decreases n
  {
    if n < 10 then [DigitChar(n)]
    else
      var front := NatToString(n / 10);
      var r := front + [DigitChar(n % 10)];
      assert r[..|r| - 1] == front;
      r
  }

  /** `int.ToString()`: the decimal digits, after a '-' when negative. */
  function IntToString(n: int): (r: string)
    ensures r != [] && IsDigit(r[|r| - 1])
    ensures forall i :: 0 <= i < |r| ==> IsDigit(r[i]) || (i == 0 && r[i] == '-' && n < 0)
  {
    if n < 0 then "-" + NatToString(-n) else NatToString(n)
  }

  /** Only digits, and a leading '-' for a negative number, occur in a decimal form. */
  lemma IntToStringOmits(n: int, c: char)
    requires !IsDigit(c) && (c == '-' ==> n >= 0)
    ensures c !in IntToString(n)
  {
    var r := IntToString(n);
    assert forall i :: 0 <= i < |r| ==> r[i] != c;
  }

  /** Formatting a 32-bit integer and parsing it back gives the integer. */
  lemma IntToStringParses(n: int)
    requires IsInt32(n)
    ensures TryParseInt(IntToString(n)) == Some(n)
  {
    var s := IntToString(n);
    TrimKeeps(s, ParseWhite);
    if n < 0 {
      assert s[1..] == NatToString(-n);
    } else {
      assert !(s[0] == '-' || s[0] == '+');
    }
  }
}
