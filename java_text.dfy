/**
 * The few `java.lang.String` and `Integer` operations the questionnaire relies
 * on: `trim`, `split` with a one-character pattern, `startsWith`, `contains`
 * and `Integer.parseInt`.
 */
module JavaText {
  import opened Wrappers

  /** The range of a Java `int`. */
  const IntMin: int := -0x8000_0000
  const IntMax: int := 0x7fff_ffff

  /** `String.trim` removes every character up to U+0020 from both ends. */
  predicate IsBlank(c: char) {
    c <= ' '
  }

  function TrimStart(s: string): (r: string)
    ensures |r| <= |s|
    ensures r != [] ==> !IsBlank(r[0])
  {
    if s != [] && IsBlank(s[0]) then TrimStart(s[1..]) else s
  }

  /** `TrimStart` drops exactly a run of leading blanks. */
  lemma {:induction false} TrimStartDrops(s: string)
    ensures TrimStart(s) == s[|s| - |TrimStart(s)|..]
    ensures forall i | 0 <= i < |s| - |TrimStart(s)| :: IsBlank(s[i])
  {
    if s != [] && IsBlank(s[0]) {
      TrimStartDrops(s[1..]);
    }
  }

  function TrimEnd(s: string): (r: string)
    ensures |r| <= |s|
    ensures r != [] ==> !IsBlank(r[|r| - 1])
  {
    if s != [] && IsBlank(s[|s| - 1]) then TrimEnd(s[..|s| - 1]) else s
  }

  /** `TrimEnd` drops exactly a run of trailing blanks. */
  lemma {:induction false} TrimEndDrops(s: string)
    ensures TrimEnd(s) == s[..|TrimEnd(s)|]
    ensures forall i | |TrimEnd(s)| <= i < |s| :: IsBlank(s[i])
  {
    if s != [] && IsBlank(s[|s| - 1]) {
      TrimEndDrops(s[..|s| - 1]);
    }
  }

  function Trim(s: string): string {
    TrimEnd(TrimStart(s))
  }

  /** Trimming changes nothing in a string with no blank characters. */
  lemma TrimNoBlanks(s: string)
    requires forall i | 0 <= i < |s| :: !IsBlank(s[i])
    ensures Trim(s) == s
  {
  }

  predicate StartsWith(s: string, prefix: string) {
    |prefix| <= |s| && s[..|prefix|] == prefix
  }

  /** `String.contains`: `part` occurs at some position of `s`. */
  predicate Contains(s: string, part: string) {
    StartsWith(s, part) || (s != [] && Contains(s[1..], part))
  }

  /** Pieces glued back together with the separator between them. */
  function Join(pieces: seq<string>, sep: char): string
    requires |pieces| >= 1
  {
    if |pieces| == 1 then pieces[0] else pieces[0] + [sep] + Join(pieces[1..], sep)
  }

  /** Cutting at every separator, keeping every piece, empty ones included. */
  function RawSplit(s: string, sep: char): (pieces: seq<string>)
    ensures |pieces| >= 1
  {
    if s == [] then [""]
    else
      var rest := RawSplit(s[1..], sep);
      if s[0] == sep then [""] + rest else [[s[0]] + rest[0]] + rest[1..]
  }

  /** No piece holds the separator, and gluing the pieces back together gives the string. */
  lemma {:induction false} RawSplitJoin(s: string, sep: char)
    ensures forall i | 0 <= i < |RawSplit(s, sep)| :: sep !in RawSplit(s, sep)[i]
    ensures Join(RawSplit(s, sep), sep) == s
  {
    if s != [] {
      var rest := RawSplit(s[1..], sep);
      RawSplitJoin(s[1..], sep);
      var pieces := RawSplit(s, sep);
      if s[0] == sep {
        assert pieces[1..] == rest;
      } else {
        assert pieces[1..] == rest[1..];
        forall i | 0 <= i < |pieces| ensures sep !in pieces[i] {
          if i > 0 {
            assert pieces[i] == rest[i];
          }
        }
        if |rest| > 1 {
          assert Join(rest, sep) == rest[0] + [sep] + Join(rest[1..], sep);
        }
      }
    }
  }

  /** `split` with a zero limit drops every empty piece at the end. */
  function DropTrailingEmpty(pieces: seq<string>): (r: seq<string>)
    ensures |r| <= |pieces| && r == pieces[..|r|]
    ensures r != [] ==> r[|r| - 1] != ""
  {
    if pieces != [] && pieces[|pieces| - 1] == "" then DropTrailingEmpty(pieces[..|pieces| - 1])
    else pieces
  }

  /** Only empty pieces are dropped. */
  lemma {:induction false} DropTrailingEmptyDropsEmpty(pieces: seq<string>)
    ensures forall i | |DropTrailingEmpty(pieces)| <= i < |pieces| :: pieces[i] == ""
  {
    if pieces != [] && pieces[|pieces| - 1] == "" {
      DropTrailingEmptyDropsEmpty(pieces[..|pieces| - 1]);
    }
  }

  /**
   * `s.split(sep)` for a pattern that is one literal character: no match
   * gives the whole string, otherwise the pieces with the empty tail dropped
   * (a leading empty piece is kept).
   */
  function Split(s: string, sep: char): seq<string> {
    if sep !in s then [s] else DropTrailingEmpty(RawSplit(s, sep))
  }

  /** A separator-free head is the first piece, whatever follows the separator. */
  lemma {:induction false} RawSplitHead(a: string, sep: char, t: string)
    requires sep !in a
    ensures RawSplit(a + [sep] + t, sep) == [a] + RawSplit(t, sep)
  {
    if a == [] {
      assert a + [sep] + t == [sep] + t;
      assert ([sep] + t)[1..] == t;
    } else {
      var s := a + [sep] + t;
      assert s[0] == a[0];
      assert s[1..] == a[1..] + [sep] + t;
      RawSplitHead(a[1..], sep, t);
      assert [a[0]] + a[1..] == a;
    }
  }

  /** A string without the separator is one piece. */
  lemma {:induction false} RawSplitNone(b: string, sep: char)
    requires sep !in b
    ensures RawSplit(b, sep) == [b]
  {
    if b != [] {
      RawSplitNone(b[1..], sep);
      assert [b[0]] + b[1..] == b;
    }
  }

  /** `"A-B".split("-")` is `[A, B]` when neither holds the separator and B is not empty. */
  lemma SplitTwo(a: string, sep: char, b: string)
    requires sep !in a && sep !in b && b != ""
    ensures Split(a + [sep] + b, sep) == [a, b]
  {
    var s := a + [sep] + b;
    assert s[|a|] == sep;
    RawSplitHead(a, sep, b);
    RawSplitNone(b, sep);
  }

  /** A non-empty separator-free head survives as the first piece. */
  lemma SplitFirst(a: string, sep: char, t: string)
    requires sep !in a && a != ""
    ensures |Split(a + [sep] + t, sep)| >= 1 && Split(a + [sep] + t, sep)[0] == a
  {
    var s := a + [sep] + t;
    assert s[|a|] == sep;
    RawSplitHead(a, sep, t);
    var pieces := RawSplit(s, sep);
    DropTrailingEmptyDropsEmpty(pieces);
    assert pieces[0] == a;
    assert |DropTrailingEmpty(pieces)| >= 1;
  }

  predicate IsDigit(c: char) {
    '0' <= c <= '9'
  }

  predicate AllDigits(s: string) {
    forall i | 0 <= i < |s| :: IsDigit(s[i])
  }

  function DigitsValue(s: string): nat
    requires AllDigits(s)
  {
    if s == [] then 0 else 10 * DigitsValue(s[..|s| - 1]) + (s[|s| - 1] as int - '0' as int)
  }

  /**
   * `Integer.parseInt` on a string of ASCII digits after an optional `+` or
   * `-`; `None` where Java throws `NumberFormatException`, including a
   * value outside the `int` range.
   */
  function ParseInt(s: string): (r: Option<int>)
    ensures r.Some? ==> IntMin <= r.value <= IntMax && s != ""
  {
    var signed := s != [] && (s[0] == '-' || s[0] == '+');
    var digits := if signed then s[1..] else s;
    if digits == [] || !AllDigits(digits) then None
    else
      var v: int := if signed && s[0] == '-' then 0 - DigitsValue(digits) as int else DigitsValue(digits);
      if IntMin <= v <= IntMax then Some(v) else None
  }

  /** `Integer.toString` for a natural number. */
  function DecimalString(n: nat): (s: string)
    ensures s != "" && AllDigits(s)
  {
    if n < 10 then ['0' + n as char] else DecimalString(n / 10) + ['0' + (n % 10) as char]
  }

  lemma {:induction false} DecimalDigitsValue(n: nat)
    ensures DigitsValue(DecimalString(n)) == n
  {
    if n >= 10 {
      var s := DecimalString(n);
      assert s[..|s| - 1] == DecimalString(n / 10);
      DecimalDigitsValue(n / 10);
    }
  }

  /** Parsing the decimal form of an `int`-sized natural number gives it back. */
  lemma ParseDecimal(n: nat)
    requires n <= IntMax
    ensures ParseInt(DecimalString(n)) == Some(n)
  {
    DecimalDigitsValue(n);
  }

  /** A leading zero adds nothing to a digit string's value. */
  lemma {:induction false} LeadingZeroValue(s: string)
    requires AllDigits(s)
    ensures AllDigits("0" + s) && DigitsValue("0" + s) == DigitsValue(s)
  {
    if s != [] {
      var t := "0" + s;
      assert t[..|t| - 1] == "0" + s[..|s| - 1];
      LeadingZeroValue(s[..|s| - 1]);
    }
  }

  /** A plus sign or a leading zero in front of the decimal form reads the same number. */
  lemma ParsePaddedDecimal(n: nat)
    requires n <= IntMax
    ensures ParseInt("+" + DecimalString(n)) == Some(n)
    ensures ParseInt("0" + DecimalString(n)) == Some(n)
  {
    DecimalDigitsValue(n);
    LeadingZeroValue(DecimalString(n));
    assert ("+" + DecimalString(n))[1..] == DecimalString(n);
  }
}
