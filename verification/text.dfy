/** Text primitives the generator relies on: ASCII case mapping, suffix tests,
    decimal rendering of integers (JavaScript template interpolation of a
    number) and reading a text one line at a time. */
module Text {

  datatype Option<+T> = None | Some(value: T) {
    predicate IsFailure() { None? }

    function PropagateFailure<U>(): Option<U>
      requires None?
    {
      None
    }

    function Extract(): T
      requires Some?
    {
      value
    }
  }

  /** A line followed by its terminator. */
  function Ln(line: string): string { line + "\n" }

  /** `s.endsWith(suffix)` */
  predicate EndsWith(s: string, suffix: string) {
    |suffix| <= |s| && s[|s| - |suffix|..] == suffix
  }

  // ---------------------------------------------------------------------
  // ASCII lower-casing (`String.prototype.toLowerCase` on ASCII text)
  // ---------------------------------------------------------------------

  predicate IsUpper(c: char) { 'A' <= c <= 'Z' }

  function LowerChar(c: char): (r: char)
    ensures !IsUpper(r)
    ensures !IsUpper(c) ==> r == c
    ensures IsUpper(c) ==> r as int == c as int + ('a' as int - 'A' as int)
  {
    if IsUpper(c) then (c as int - 'A' as int + 'a' as int) as char else c
  }

  /** Lower-cases every ASCII capital and leaves every other character alone. */
  function Lower(s: string): (r: string)
    ensures |r| == |s|
    ensures forall i :: 0 <= i < |r| ==> !IsUpper(r[i])
    ensures forall i :: 0 <= i < |s| && !IsUpper(s[i]) ==> r[i] == s[i]
    ensures forall i :: 0 <= i < |s| && IsUpper(s[i]) ==> r[i] as int == s[i] as int + 32
  {
    seq(|s|, i requires 0 <= i < |s| => LowerChar(s[i]))
  }

  // ---------------------------------------------------------------------
  // Decimal numbers, as `${n}` renders an integer-valued number
  // ---------------------------------------------------------------------

  predicate IsDigit(c: char) { '0' <= c <= '9' }

  predicate AllDigits(s: string) { forall i :: 0 <= i < |s| ==> IsDigit(s[i]) }

  function DigitChar(d: nat): (c: char)
    requires d < 10
    ensures IsDigit(c)
    ensures (c == '0') == (d == 0)
  {
    ('0' as int + d) as char
  }

  function DigitValue(c: char): (d: nat)
    requires IsDigit(c)
    ensures d < 10
  {
    c as int - '0' as int
  }

  /** The shortest decimal numeral of `n`: at least one digit, no leading zero. */
  function NatToString(n: nat): (r: string)
    ensures |r| >= 1 && AllDigits(r)
    ensures (r[0] == '0') == (n == 0)
    ensures n == 0 ==> |r| == 1
    decreases n
  {
    if n < 10 then [DigitChar(n)] else NatToString(n / 10) + [DigitChar(n % 10)]
  }

  /** The value of a string of decimal digits. */
  function DigitsValue(s: string): nat
    requires AllDigits(s)
    decreases |s|
  {
    if s == [] then 0 else DigitsValue(s[..|s| - 1]) * 10 + DigitValue(s[|s| - 1])
  }

  /** Reading back a numeral gives the number it was rendered from. */
  lemma {:induction false} NatToStringRoundTrip(n: nat)
    ensures DigitsValue(NatToString(n)) == n
    decreases n
  {
    if n >= 10 {
      var r := NatToString(n);
      assert r[..|r| - 1] == NatToString(n / 10);
      NatToStringRoundTrip(n / 10);
    }
  }

  /** `${i}` for an integer-valued number; a negative zero prints as "0". */
  function IntToString(i: int): (r: string)
    ensures |r| >= 1 && (r[0] == '-') == (i < 0)
  {
    if i < 0 then "-" + NatToString(-i) else NatToString(i)
  }

  /** Reads an optionally negative decimal integer. */
  function ParseInt(s: string): (r: Option<int>)
  {
    if |s| >= 2 && s[0] == '-' && AllDigits(s[1..]) then Some(-(DigitsValue(s[1..]) as int))
    else if |s| >= 1 && AllDigits(s) then Some(DigitsValue(s))
    else None
  }

  /** `digits` is the canonical decimal numeral of `n`: no leading zero,
      and zero is the single digit `0`. */
  predicate CanonicalNumeral(digits: string, n: nat) {
    && |digits| >= 1 && AllDigits(digits)
    && (digits[0] == '0') == (n == 0) && (n == 0 ==> |digits| == 1)
    && DigitsValue(digits) == n
  }

  /** `${i}` is the sign, when negative, followed by the canonical numeral of
      the magnitude. */
  lemma IntToStringCanonical(i: int)
    ensures i < 0 ==> IntToString(i)[0] == '-' && CanonicalNumeral(IntToString(i)[1..], -i)
    ensures i >= 0 ==> CanonicalNumeral(IntToString(i), i)
  {
    if i < 0 {
      var digits := NatToString(-i);
      NatCanonical(-i);
      assert IntToString(i)[1..] == digits;
    } else {
      NatCanonical(i);
    }
  }

  lemma NatCanonical(n: nat)
    ensures CanonicalNumeral(NatToString(n), n)
  {
    NatToStringRoundTrip(n);
  }

  lemma IntToStringRoundTrip(i: int)
    ensures ParseInt(IntToString(i)) == Some(i)
    ensures '\n' !in IntToString(i)
  {
    if i < 0 {
      NumeralRoundTrip(-i);
      assert IntToString(i) == "-" + NatToString(-i);
    } else {
      NumeralRoundTrip(i);
    }
  }

  /** A numeral, with or without a minus sign in front, reads back as its
      value and holds no line terminator. */
  lemma NumeralRoundTrip(n: nat)
    ensures ParseInt(NatToString(n)) == Some(n)
    ensures ParseInt("-" + NatToString(n)) == Some(-(n as int))
    ensures '\n' !in NatToString(n) && '\n' !in "-" + NatToString(n)
  {
    var digits := NatToString(n);
    NatToStringRoundTrip(n);
    ParseNegative(digits);
    ParseDigits(digits);
    DigitsSingleLine(digits);
  }

  lemma ParseNegative(digits: string)
    requires |digits| >= 1 && AllDigits(digits)
    ensures ParseInt("-" + digits) == Some(-(DigitsValue(digits) as int))
  {
    assert ("-" + digits)[1..] == digits;
  }

  lemma ParseDigits(digits: string)
    requires |digits| >= 1 && AllDigits(digits)
    ensures ParseInt(digits) == Some(DigitsValue(digits) as int)
  {
    assert IsDigit(digits[0]);
  }

  lemma DigitsSingleLine(s: string)
    requires AllDigits(s)
    ensures '\n' !in s
  {
  }

  // ---------------------------------------------------------------------
  // Reading text line by line
  // ---------------------------------------------------------------------

  /** Splits `s` at its first line terminator into the line before it and the
      text after it; `None` when `s` has no terminator. */
  function ReadLine(s: string): (r: Option<(string, string)>)
    ensures r.Some? ==> s == r.value.0 + "\n" + r.value.1 && '\n' !in r.value.0
    ensures r.None? ==> '\n' !in s
    decreases |s|
  {
    if s == [] then None
    else if s[0] == '\n' then Some(([], s[1..]))
    else
      match ReadLine(s[1..])
      case None => None
      case Some(split) => Some(([s[0]] + split.0, split.1))
  }

  lemma {:induction false} ReadLineOf(line: string, rest: string)
    requires '\n' !in line
    ensures ReadLine(Ln(line) + rest) == Some((line, rest))
    decreases |line|
  {
    var s := Ln(line) + rest;
    if line == [] {
      assert s[0] == '\n' && s[1..] == rest;
    } else {
      assert s[0] == line[0] && s[1..] == Ln(line[1..]) + rest;
      ReadLineOf(line[1..], rest);
      assert [line[0]] + line[1..] == line;
    }
  }

  /** The text made of the given lines, each followed by its terminator. */
  function JoinLines(lines: seq<string>): string
  {
    if lines == [] then "" else Ln(lines[0]) + JoinLines(lines[1..])
  }

  predicate SingleLines(lines: seq<string>) {
    forall k :: 0 <= k < |lines| ==> '\n' !in lines[k]
  }

  lemma {:induction false} JoinLinesAppend(a: seq<string>, b: seq<string>)
    ensures JoinLines(a + b) == JoinLines(a) + JoinLines(b)
    decreases |a|
  {
    if a == [] {
      assert a + b == b;
    } else {
      assert (a + b)[1..] == a[1..] + b;
      JoinLinesAppend(a[1..], b);
    }
  }

  lemma JoinLinesCons(line: string, rest: seq<string>)
    ensures JoinLines([line] + rest) == Ln(line) + JoinLines(rest)
  {
    assert ([line] + rest)[1..] == rest;
  }

  lemma JoinThreeLines(a: string, b: string, c: string)
    ensures JoinLines([a, b, c]) == Ln(a) + Ln(b) + Ln(c)
  {
    JoinLinesCons(c, []);
    assert [c] + [] == [c];
    JoinLinesCons(b, [c]);
    JoinLinesCons(a, [b] + [c]);
    assert [a] + ([b] + [c]) == [a, b, c];
  }

  lemma JoinFourLines(a: string, b: string, c: string, d: string)
    ensures JoinLines([a, b, c, d]) == Ln(a) + Ln(b) + Ln(c) + Ln(d)
  {
    JoinLinesCons(d, []);
    assert [d] + [] == [d];
    JoinLinesCons(c, [d]);
    JoinLinesCons(b, [c] + [d]);
    JoinLinesCons(a, [b] + ([c] + [d]));
    assert [a] + ([b] + ([c] + [d])) == [a, b, c, d];
  }

  /** Splits a text into its lines; `None` when the text does not end with a
      line terminator. */
  function SplitLines(s: string): (r: Option<seq<string>>)
    ensures r.Some? ==> JoinLines(r.value) == s && SingleLines(r.value)
    decreases |s|
  {
    if s == [] then Some([])
    else
      var first :- ReadLine(s);
      var more :- SplitLines(first.1);
      assert ([first.0] + more)[1..] == more;
      Some([first.0] + more)
  }

  /** Splitting joined lines gives back the lines. */
  lemma {:induction false} SplitLinesOf(lines: seq<string>)
    requires SingleLines(lines)
    ensures SplitLines(JoinLines(lines)) == Some(lines)
    decreases |lines|
  {
    if lines != [] {
      ReadLineOf(lines[0], JoinLines(lines[1..]));
      SplitLinesOf(lines[1..]);
      assert [lines[0]] + lines[1..] == lines;
    }
  }

  /** The part of `line` strictly between a given prefix and a given suffix. */
  function Between(line: string, prefix: string, suffix: string): (r: Option<string>)
    ensures r.Some? ==> line == prefix + r.value + suffix
  {
    if |prefix| + |suffix| <= |line| && line[..|prefix|] == prefix && line[|line| - |suffix|..] == suffix
    then Some(line[|prefix|..|line| - |suffix|])
    else None
  }

  lemma BetweenOf(prefix: string, middle: string, suffix: string)
    ensures Between(prefix + middle + suffix, prefix, suffix) == Some(middle)
  {
    var line := prefix + middle + suffix;
    assert line[..|prefix|] == prefix;
    assert line[|line| - |suffix|..] == suffix;
    assert line[|prefix|..|line| - |suffix|] == middle;
  }

  /** Reads a line `prefix + <integer> + suffix`, giving the integer. */
  function IntBetween(line: string, prefix: string, suffix: string): (r: Option<int>)
  {
    var digits :- Between(line, prefix, suffix);
    ParseInt(digits)
  }

  lemma IntBetweenOf(prefix: string, value: int, suffix: string)
    ensures IntBetween(prefix + IntToString(value) + suffix, prefix, suffix) == Some(value)
  {
    IntToStringRoundTrip(value);
    BetweenOf(prefix, IntToString(value), suffix);
  }
}
