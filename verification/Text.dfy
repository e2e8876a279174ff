/** The string operations of the standard library that the wire batch and the CSV contract use. */
module Text {
  import opened Prelude

  predicate Without(s: string, c: char) {
    forall i :: 0 <= i < |s| ==> s[i] != c
  }

  // ---- join and split ---------------------------------------------------------

  function Join(parts: seq<string>, sep: char): string {
    if parts == [] then ""
    else if |parts| == 1 then parts[0]
    else parts[0] + [sep] + Join(parts[1..], sep)
  }

  function Split(s: string, sep: char): (parts: seq<string>)
    ensures |parts| >= 1
  {
    if s == [] then [""]
    else
      var rest := Split(s[1..], sep);
      if s[0] == sep then [""] + rest else [[s[0]] + rest[0]] + rest[1..]
  }

  lemma {:induction false} SplitAtFirst(field: string, rest: string, sep: char)
    requires Without(field, sep)
    ensures Split(field + [sep] + rest, sep) == [field] + Split(rest, sep)
  {
    var s := field + [sep] + rest;
    if field == [] {
      assert s[1..] == rest;
    } else {
      assert s[1..] == field[1..] + [sep] + rest;
      SplitAtFirst(field[1..], rest, sep);
      assert [field[0]] + field[1..] == field;
    }
  }

  lemma {:induction false} SplitWhole(field: string, sep: char)
    requires Without(field, sep)
    ensures Split(field, sep) == [field]
  {
    if field != [] {
      SplitWhole(field[1..], sep);
      assert [field[0]] + field[1..] == field;
    }
  }

  /** Splitting a joined list gives the list back. */
  lemma {:induction false} SplitOfJoin(parts: seq<string>, sep: char)
    requires parts != [] && forall i :: 0 <= i < |parts| ==> Without(parts[i], sep)
    ensures Split(Join(parts, sep), sep) == parts
  {
    if |parts| == 1 {
      SplitWhole(parts[0], sep);
    } else {
      SplitOfJoin(parts[1..], sep);
      SplitAtFirst(parts[0], Join(parts[1..], sep), sep);
    }
  }

  lemma {:induction false} JoinWithout(parts: seq<string>, sep: char, c: char)
    requires c != sep && forall i :: 0 <= i < |parts| ==> Without(parts[i], c)
    ensures Without(Join(parts, sep), c)
  {
    if |parts| > 1 {
      JoinWithout(parts[1..], sep, c);
    }
  }

  // ---- decimal u64 --------------------------------------------------------------

  function Digit(d: nat): char
    requires d < 10
  {
    '0' + d as char
  }

  predicate IsDigit(c: char) {
    '0' <= c <= '9'
  }

  function PrintNat(n: nat): (s: string)
    ensures |s| >= 1
  {
    if n < 10 then [Digit(n)] else PrintNat(n / 10) + [Digit(n % 10)]
  }

  function DigitsValue(s: string): nat
    requires forall i :: 0 <= i < |s| ==> IsDigit(s[i])
  {
    if s == [] then 0
    else
      assert IsDigit(s[|s| - 1]);
      10 * DigitsValue(s[..|s| - 1]) + (s[|s| - 1] as int - '0' as int)
  }

  /** `str::parse::<u64>`: one optional plus sign, at least one digit, no overflow. */
  function ParseU64(s: string): Option<U64> {
    var digits := if s != [] && s[0] == '+' then s[1..] else s;
    if digits == [] || exists i :: 0 <= i < |digits| && !IsDigit(digits[i]) then None
    else if DigitsValue(digits) > U64_MAX then None
    else Some(DigitsValue(digits))
  }

  lemma {:induction false} PrintedDigits(n: nat)
    ensures forall i :: 0 <= i < |PrintNat(n)| ==> IsDigit(PrintNat(n)[i])
    ensures DigitsValue(PrintNat(n)) == n
  {
    if n >= 10 {
      PrintedDigits(n / 10);
      assert PrintNat(n)[..|PrintNat(n)| - 1] == PrintNat(n / 10);
    } else {
      assert PrintNat(n)[..0] == [];
      assert DigitsValue(PrintNat(n)[..0]) == 0;
    }
  }

  lemma ParseOfPrint(n: U64)
    ensures ParseU64(PrintNat(n)) == Some(n)
  {
    PrintedDigits(n);
    assert IsDigit(PrintNat(n)[0]);
  }

  /** The notation is decimal, most significant digit first and without padding. */
  lemma DecimalNotation(n: nat, d: nat)
    requires n > 0 && d < 10
    ensures PrintNat(10 * n + d) == PrintNat(n) + [Digit(d)]
    ensures PrintNat(d) == [Digit(d)]
    ensures Digit(0) == '0' && Digit(9) == '9' && PrintNat(4096) == "4096"
  {
    assert PrintNat(4) == "4" && PrintNat(40) == "40" && PrintNat(409) == "409";
  }

  /** A printed number is read back unless it does not fit, with or without a plus sign. */
  lemma ParseOfAnyPrint(n: nat)
    ensures ParseU64(PrintNat(n)) == ParseU64("+" + PrintNat(n)) == if n <= U64_MAX then Some(n) else None
  {
    PrintedDigits(n);
    assert IsDigit(PrintNat(n)[0]);
    assert ("+" + PrintNat(n))[1..] == PrintNat(n);
  }

  // ---- whitespace and lines ---------------------------------------------------------

  /** `char::is_whitespace`, the Unicode `White_Space` property. */
  predicate IsWhitespace(c: char) {
    || '\t' <= c <= '\r' || c == ' ' || c == '\U{85}' || c == '\U{A0}' || c == '\U{1680}'
    || '\U{2000}' <= c <= '\U{200A}' || c == '\U{2028}' || c == '\U{2029}' || c == '\U{202F}'
    || c == '\U{205F}' || c == '\U{3000}'
  }

  function TrimStart(s: string): string {
    if s != [] && IsWhitespace(s[0]) then TrimStart(s[1..]) else s
  }

  function TrimEnd(s: string): string {
    if s != [] && IsWhitespace(s[|s| - 1]) then TrimEnd(s[..|s| - 1]) else s
  }

  function Trim(s: string): string {
    TrimEnd(TrimStart(s))
  }

  predicate AllWhitespace(s: string) {
    forall i :: 0 <= i < |s| ==> IsWhitespace(s[i])
  }

  lemma {:induction false} TrimStartCuts(s: string) returns (k: nat)
    ensures k <= |s| && TrimStart(s) == s[k..] && AllWhitespace(s[..k])
    ensures k < |s| ==> !IsWhitespace(s[k])
  {
    if s != [] && IsWhitespace(s[0]) {
      var rest := TrimStartCuts(s[1..]);
      k := rest + 1;
      assert s[..k] == [s[0]] + s[1..][..rest];
    } else {
      k := 0;
    }
  }

  lemma {:induction false} TrimEndCuts(s: string) returns (k: nat)
    ensures k <= |s| && TrimEnd(s) == s[..k] && AllWhitespace(s[k..])
    ensures k > 0 ==> !IsWhitespace(s[k - 1])
  {
    if s != [] && IsWhitespace(s[|s| - 1]) {
      k := TrimEndCuts(s[..|s| - 1]);
      assert s[k..] == s[..|s| - 1][k..] + [s[|s| - 1]];
    } else {
      k := |s|;
    }
  }

  /** Trimming takes away the whitespace at both ends and nothing else; only whitespace trims to nothing. */
  lemma TrimExactly(s: string) returns (from: nat, to: nat)
    ensures from <= to <= |s| && Trim(s) == s[from..to]
    ensures AllWhitespace(s[..from]) && AllWhitespace(s[to..])
    ensures from < to ==> !IsWhitespace(s[from]) && !IsWhitespace(s[to - 1])
    ensures Trim(s) == "" <==> AllWhitespace(s)
  {
    from := TrimStartCuts(s);
    var cut := TrimEndCuts(s[from..]);
    to := from + cut;
    assert s[to..] == s[from..][cut..];
    assert s[from..to] == s[from..][..cut];
    if from < to {
      assert s[from..][cut - 1] == s[to - 1];
    } else {
      assert s == s[..from] + s[to..];
    }
  }

  lemma TrimKeeps(s: string)
    requires s != [] && !IsWhitespace(s[0]) && !IsWhitespace(s[|s| - 1])
    ensures Trim(s) == s
  {
  }

  function StripCarriageReturn(line: string): string {
    if line != [] && line[|line| - 1] == '\r' then line[..|line| - 1] else line
  }

  /** The text up to the first newline, and the text after it if there is one. */
  function TakeLine(s: string): (string, Option<string>) {
    if s == [] then ("", None)
    else if s[0] == '\n' then ("", Some(s[1..]))
    else
      var rest := TakeLine(s[1..]);
      ([s[0]] + rest.0, rest.1)
  }

  lemma {:induction false} TakeLineShrinks(s: string)
    ensures TakeLine(s).1.Some? ==> |TakeLine(s).1.value| < |s|
  {
    if s != [] && s[0] != '\n' {
      TakeLineShrinks(s[1..]);
    }
  }

  /** `str::lines`: a final newline starts no line, and only a terminated line loses a carriage return. */
  function Lines(s: string): seq<string>
    decreases |s|
  {
    if s == [] then []
    else
      TakeLineShrinks(s);
      match TakeLine(s)
      case (line, None) => [line]
      case (line, Some(rest)) => [StripCarriageReturn(line)] + Lines(rest)
  }

  lemma {:induction false} TakeTerminated(line: string, rest: string)
    requires Without(line, '\n')
    ensures TakeLine(line + "\n" + rest) == (line, Some(rest))
  {
    var s := line + "\n" + rest;
    if line == [] {
      assert s[1..] == rest;
    } else {
      assert s[1..] == line[1..] + "\n" + rest;
      TakeTerminated(line[1..], rest);
      assert [line[0]] + line[1..] == line;
    }
  }

  /** A carriage return before the newline belongs to the line end; a last line needs none. */
  lemma LinesOfOtherEnds(line: string, rest: string)
    requires Without(line, '\n')
    ensures Lines(line + "\r\n" + rest) == [line] + Lines(rest)
    ensures line != "" ==> Lines(line) == [line]
  {
    assert line + "\r\n" + rest == (line + "\r") + "\n" + rest;
    TakeTerminated(line + "\r", rest);
    assert (line + "\r")[..|line|] == line;
    TakeUnterminated(line);
  }

  lemma {:induction false} TakeUnterminated(line: string)
    requires Without(line, '\n')
    ensures TakeLine(line) == (line, None)
  {
    if line != [] {
      TakeUnterminated(line[1..]);
      assert [line[0]] + line[1..] == line;
    }
  }

  lemma LinesOfTerminated(line: string, rest: string)
    requires Without(line, '\n') && Without(line, '\r')
    ensures Lines(line + "\n" + rest) == [line] + Lines(rest)
  {
    TakeTerminated(line, rest);
  }
}
