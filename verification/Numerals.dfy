/** Numbers in strings: the C library's strtol and atoi, and printf's %d, %x and %02x. */
module Numerals {

  type Base = b: nat | b == 10 || b == 16 witness 10

  function Digit(v: nat): char
    requires v < 16
  {
    "0123456789abcdef"[v]
  }

  /** A digit's value, 16 for a character that is no digit. */
  function DigitVal(c: char): nat {
    if '0' <= c <= '9' then c as int - '0' as int
    else if 'a' <= c <= 'f' then c as int - 'a' as int + 10
    else if 'A' <= c <= 'F' then c as int - 'A' as int + 10
    else 16
  }

  /** Hexadecimal digits are read in either case of letters, and nothing else is a digit. */
  lemma DigitsBothCases(c: char, v: nat)
    requires v < 16
    ensures DigitVal(c) == v <==> c == "0123456789abcdef"[v] || c == "0123456789ABCDEF"[v]
  {
  }

  predicate IsDigit(c: char, base: Base) {
    DigitVal(c) < base
  }

  predicate IsSpace(c: char) {
    c == ' ' || '\t' <= c <= '\r'
  }

  /** The digits of a number, without leading zeros: %d and %x. */
  function Digits(n: nat, base: Base): string {
    if n < base then [Digit(n)] else Digits(n / base, base) + [Digit(n % base)]
  }

  /** Two hexadecimal digits: %02x. */
  function Hex2(b: nat): string
    requires b < 256
  {
    [Digit(b / 16), Digit(b % 16)]
  }

  predicate Numeral(d: string, base: Base) {
    d != "" && forall i :: 0 <= i < |d| ==> IsDigit(d[i], base)
  }

  function Value(d: string, base: Base): nat {
    if d == "" then 0
    else (if base == 10 then Value(d[..|d| - 1], base) * 10 else Value(d[..|d| - 1], base) * 16) + DigitVal(d[|d| - 1])
  }

  /** How many digits a string starts with. */
  function DigitRun(t: string, base: Base): (k: nat)
    ensures k <= |t|
    ensures forall i :: 0 <= i < k ==> IsDigit(t[i], base)
    ensures k < |t| ==> !IsDigit(t[k], base)
  {
    if t == "" || !IsDigit(t[0], base) then 0 else 1 + DigitRun(t[1..], base)
  }

  function SpaceRun(t: string): (k: nat)
    ensures k <= |t|
  {
    if t == "" || !IsSpace(t[0]) then 0 else 1 + SpaceRun(t[1..])
  }

  /** The prefix of a hexadecimal number, with a digit behind it, at position p. */
  predicate HasHexPrefix(t: string, p: nat, base: Base) {
    base == 16 && |t| >= p + 3 && t[p] == '0' && (t[p + 1] == 'x' || t[p + 1] == 'X') && IsDigit(t[p + 2], base)
  }

  /** The number at position q, and where it ends; if there is none, nothing has been read at all. */
  function NumberAt(t: string, q: nat, negative: bool, base: Base): (r: (int, nat))
    requires q <= |t|
    ensures r.1 <= |t|
  {
    var k := DigitRun(t[q..], base);
    if k == 0 then (0, 0)
    else
      var v: int := Value(t[q..q + k], base);
      (if negative then -v else v, q + k)
  }

  /** strtol: the number at the start of a string and how many characters it takes; (0, 0) if there is no number. Values
      too large for a long are not clamped here. */
  function Strtol(t: string, base: Base): (r: (int, nat))
    ensures r.1 <= |t|
  {
    var s := SpaceRun(t);
    var signed := s < |t| && (t[s] == '-' || t[s] == '+');
    var p := if signed then s + 1 else s;
    NumberAt(t, if HasHexPrefix(t, p, base) then p + 2 else p, signed && t[s] == '-', base)
  }

  const MAX_LONG := 0x7fff_ffff_ffff_ffff

  /** strtol in base 10, clamped to a 64-bit long and then cut to a 32-bit int. */
  function Atoi(t: string): int {
    var v := Strtol(t, 10).0;
    var clamped := if v > MAX_LONG then MAX_LONG else if v < -MAX_LONG - 1 then -MAX_LONG - 1 else v;
    var low := clamped % 0x1_0000_0000;
    if low >= 0x8000_0000 then low - 0x1_0000_0000 else low
  }

  lemma DigitIsDigit(v: nat, base: Base)
    requires v < base
    ensures IsDigit(Digit(v), base) && DigitVal(Digit(v)) == v
  {
  }

  /** Printing a number gives a numeral with its value. */
  lemma {:induction false} DigitsValue(n: nat, base: Base)
    ensures Numeral(Digits(n, base), base) && Value(Digits(n, base), base) == n
  {
    hide Digit, DigitVal;
    if n < base {
      DigitIsDigit(n, base);
      assert Digits(n, base)[..0] == "";
    } else {
      DigitsValue(n / base, base);
      DigitIsDigit(n % base, base);
      assert Digits(n, base)[..|Digits(n, base)| - 1] == Digits(n / base, base);
      assert base == 10 ==> n / 10 * 10 + n % 10 == n;
      assert base == 16 ==> n / 16 * 16 + n % 16 == n;
    }
  }

  lemma Hex2Value(b: nat)
    requires b < 256
    ensures Numeral(Hex2(b), 16) && Value(Hex2(b), 16) == b
  {
    hide Digit, DigitVal;
    DigitIsDigit(b / 16, 16);
    DigitIsDigit(b % 16, 16);
    assert Hex2(b)[..1] == [Digit(b / 16)];
    assert [Digit(b / 16)][..0] == "";
    assert Value([Digit(b / 16)], 16) == b / 16;
  }

  lemma {:induction false} DigitRunOf(d: string, rest: string, base: Base)
    requires forall i :: 0 <= i < |d| ==> IsDigit(d[i], base)
    requires rest == "" || !IsDigit(rest[0], base)
    ensures DigitRun(d + rest, base) == |d|
  {
    hide DigitVal;
    if d == "" {
      assert d + rest == rest;
    } else {
      assert (d + rest)[1..] == d[1..] + rest;
      DigitRunOf(d[1..], rest, base);
    }
  }

  /** strtol on something that begins with a digit, and not with the prefix of a hexadecimal number. */
  lemma StrtolDigits(t: string, base: Base)
    requires t != "" && IsDigit(t[0], base) && !HasHexPrefix(t, 0, base)
    ensures Strtol(t, base) == (Value(t[..DigitRun(t, base)], base), DigitRun(t, base))
  {
    hide Value, HasHexPrefix, IsDigit, NumberAt, DigitRun;
    NotSpace(t[0], base);
    assert SpaceRun(t) == 0;
    NumberAtStart(t, base);
  }

  lemma NumberAtStart(t: string, base: Base)
    requires t != "" && IsDigit(t[0], base)
    ensures NumberAt(t, 0, false, base) == (Value(t[..DigitRun(t, base)], base), DigitRun(t, base))
  {
    hide Value, IsDigit;
  }

  lemma NoHexPrefix(d: string, rest: string, base: Base)
    requires Numeral(d, base)
    requires rest == "" || (!IsDigit(rest[0], base) && rest[0] != 'x' && rest[0] != 'X')
    ensures !HasHexPrefix(d + rest, 0, base)
  {
    var t := d + rest;
    if |t| >= 3 { assert t[1] == if |d| > 1 then d[1] else rest[0]; }
    if |d| > 1 { NotSpace(d[1], base); }
  }

  /** A numeral is read whole, up to the first character that is no digit. */
  lemma StrtolNumeral(d: string, rest: string, base: Base)
    requires Numeral(d, base)
    requires rest == "" || (!IsDigit(rest[0], base) && rest[0] != 'x' && rest[0] != 'X')
    ensures Strtol(d + rest, base) == (Value(d, base), |d|)
  {
    hide Value, Strtol, HasHexPrefix, DigitRun, IsDigit;
    var t := d + rest;
    NoHexPrefix(d, rest, base);
    assert t[0] == d[0];
    StrtolDigits(t, base);
    DigitRunOf(d, rest, base);
    assert t[..|d|] == d;
  }

  lemma NotSpace(c: char, base: Base)
    requires IsDigit(c, base)
    ensures !IsSpace(c) && c != '-' && c != '+' && c != 'x' && c != 'X'
  {
  }

  lemma AtoiNumeral(d: string, rest: string)
    requires Numeral(d, 10) && Value(d, 10) < 0x8000_0000
    requires rest == "" || (!IsDigit(rest[0], 10) && rest[0] != 'x' && rest[0] != 'X')
    ensures Atoi(d + rest) == Value(d, 10)
  {
    hide Strtol, Value, IsDigit, Numeral;
    StrtolNumeral(d, rest, 10);
  }

  /** Numbers too large for a 64-bit long are read as -1, and others modulo 32 bits. */
  lemma AtoiWraps(d: string, rest: string)
    requires Numeral(d, 10)
    requires rest == "" || (!IsDigit(rest[0], 10) && rest[0] != 'x' && rest[0] != 'X')
    ensures -0x8000_0000 <= Atoi(d + rest) < 0x8000_0000
    ensures if Value(d, 10) > MAX_LONG then Atoi(d + rest) == -1
            else (Atoi(d + rest) - Value(d, 10)) % 0x1_0000_0000 == 0
  {
    hide Strtol, Value, IsDigit, Numeral;
    StrtolNumeral(d, rest, 10);
  }
}
