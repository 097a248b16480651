/** Decimal and hexadecimal numerals as printed by the programs, with the readings
    that undo them. */
module Numerals {
  import opened Text

  const HEX: string := "0123456789abcdef"

  predicate IsDigit(c: char) {
    '0' <= c <= '9'
  }

  predicate IsHexDigit(c: char) {
    IsDigit(c) || 'a' <= c <= 'f'
  }

  function DigitValue(c: char): nat
    requires IsHexDigit(c)
  {
    if IsDigit(c) then (c as int) - ('0' as int) else (c as int) - ('a' as int) + 10
  }

  predicate AllHex(s: string) {
    forall i :: 0 <= i < |s| ==> IsHexDigit(s[i])
  }

  /** The number a numeral stands for. */
  function Value(s: string, base: nat): nat
    requires AllHex(s)
  {
    if s == "" then 0 else Value(s[..|s| - 1], base) * base + DigitValue(s[|s| - 1])
  }

  lemma HexDigitValue(n: nat)
    requires n < 16
    ensures IsHexDigit(HEX[n]) && DigitValue(HEX[n]) == n
    ensures n < 10 ==> IsDigit(HEX[n])
  {
  }

  lemma Division(n: nat, base: nat)
    requires 2 <= base <= n
    ensures n / base < n && n % base < base && n / base * base + n % base == n
  {
  }

  /** The shortest numeral of a number, in a base of at most sixteen. */
  function Numeral(n: nat, base: nat): (s: string)
    requires 2 <= base <= 16
    ensures s != "" && AllHex(s)
    decreases n
  {
    if n < base then
      HexDigitValue(n);
      [HEX[n]]
    else
      Division(n, base);
      HexDigitValue(n % base);
      Numeral(n / base, base) + [HEX[n % base]]
  }

  function Power16(e: nat): (p: nat) {
    if e == 0 then 1 else 16 * Power16(e - 1)
  }

  /** A number below a power of sixteen has no more digits than its exponent. */
  lemma {:induction false} NumeralFits(n: nat, digits: nat)
    requires digits > 0 && n < Power16(digits)
    ensures |Numeral(n, 16)| <= digits
    decreases digits
  {
    if n >= 16 {
      Division(n, 16);
      NumeralFits(n / 16, digits - 1);
    }
  }

  function Zeros(n: nat): string {
    seq(n, i => '0')
  }

  /** A numeral padded with zeros on the left to a width, as `%016x` pads it. */
  function Padded(n: nat, base: nat, width: nat): (s: string)
    requires 2 <= base <= 16
    ensures |s| >= width && AllHex(s)
  {
    var s := Numeral(n, base);
    if |s| < width then Zeros(width - |s|) + s else s
  }

  function Decimal(n: int): string {
    if n < 0 then "-" + Numeral(-n, 10) else Numeral(n, 10)
  }

  lemma ValueAppend(s: string, c: char, base: nat)
    requires AllHex(s) && IsHexDigit(c)
    ensures AllHex(s + [c]) && Value(s + [c], base) == Value(s, base) * base + DigitValue(c)
  {
    assert (s + [c])[..|s|] == s;
  }

  lemma ValueOfDigit(n: nat, base: nat)
    requires n < base <= 16 && 2 <= base
    ensures Value(Numeral(n, base), base) == n
  {
    HexDigitValue(n);
    ValueAppend("", HEX[n], base);
    assert "" + [HEX[n]] == [HEX[n]];
  }

  /** The value of a numeral is that of all but its last digit, times the base, and the digit. */
  lemma ValueOfLast(n: nat, base: nat)
    requires 2 <= base <= 16 && n >= base
    ensures n / base < n && Value(Numeral(n, base), base) == Value(Numeral(n / base, base), base) * base + n % base
  {
    Division(n, base);
    HexDigitValue(n % base);
    ValueAppend(Numeral(n / base, base), HEX[n % base], base);
  }

  lemma {:induction false} ValueOfNumeral(n: nat, base: nat)
    requires 2 <= base <= 16
    ensures Value(Numeral(n, base), base) == n
    decreases n
  {
    if n < base {
      ValueOfDigit(n, base);
    } else {
      ValueOfLast(n, base);
      ValueOfNumeral(n / base, base);
      Division(n, base);
    }
  }

  lemma {:induction false} DecimalDigits(n: nat)
    ensures forall i :: 0 <= i < |Numeral(n, 10)| ==> IsDigit(Numeral(n, 10)[i])
    decreases n
  {
    if n < 10 {
      HexDigitValue(n);
    } else {
      HexDigitValue(n % 10);
      DecimalDigits(n / 10);
    }
  }

  lemma {:induction false} ValueOfZeros(k: nat, s: string, base: nat)
    requires AllHex(s)
    ensures AllHex(Zeros(k) + s) && Value(Zeros(k) + s, base) == Value(s, base)
    decreases |s|, k
  {
    var t := Zeros(k) + s;
    if s == "" {
      if k == 0 {
      } else {
        assert t[..|t| - 1] == Zeros(k - 1) + "";
        ValueOfZeros(k - 1, "", base);
        assert Value(t[..|t| - 1], base) == 0;
      }
    } else {
      assert t[..|t| - 1] == Zeros(k) + s[..|s| - 1];
      ValueOfZeros(k, s[..|s| - 1], base);
    }
  }

  lemma ValueOfPadded(n: nat, base: nat, width: nat)
    requires 2 <= base <= 16
    ensures Value(Padded(n, base, width), base) == n
  {
    ValueOfNumeral(n, base);
    var s := Numeral(n, base);
    if |s| < width {
      ValueOfZeros(width - |s|, s, base);
    }
  }

  /** The shortest numeral: only zero begins with a zero. */
  lemma {:induction false} NoLeadingZero(n: nat, base: nat)
    requires 2 <= base <= 16 && n > 0
    ensures Numeral(n, base)[0] != '0'
    decreases n
  {
    if n >= base {
      Division(n, base);
      NoLeadingZero(n / base, base);
    } else {
      HexDigitValue(n);
    }
  }

  /** A decimal numeral is a minus sign for a negative number and the digits of its magnitude. */
  lemma DecimalExactly(n: int)
    ensures var digits := if n < 0 then Decimal(n)[1..] else Decimal(n);
      && Decimal(n) == (if n < 0 then "-" else "") + digits
      && digits != "" && (forall i :: 0 <= i < |digits| ==> IsDigit(digits[i]))
      && Value(digits, 10) == (if n < 0 then -n else n)
      && (digits[0] == '0' ==> n == 0)
  {
    var m := if n < 0 then -n else n;
    var digits := if n < 0 then Decimal(n)[1..] else Decimal(n);
    assert digits == Numeral(m, 10);
    DecimalDigits(m);
    ValueOfNumeral(m, 10);
    if m > 0 {
      NoLeadingZero(m, 10);
    }
  }

  /** A number below sixteen to the width is padded to exactly that width, and read back. */
  lemma PaddedExactly(n: nat, width: nat)
    requires width > 0 && n < Power16(width)
    ensures |Padded(n, 16, width)| == width && Value(Padded(n, 16, width), 16) == n
  {
    NumeralFits(n, width);
    ValueOfPadded(n, 16, width);
  }

  lemma NumeralIsInjective(m: nat, n: nat, base: nat)
    requires 2 <= base <= 16 && Numeral(m, base) == Numeral(n, base)
    ensures m == n
  {
    ValueOfNumeral(m, base);
    ValueOfNumeral(n, base);
  }

  lemma DecimalSign(n: int)
    ensures Decimal(n) != "" && (Decimal(n)[0] == '-' <==> n < 0)
  {
    DecimalDigits(if n < 0 then -n else n);
  }

  /** No two numbers share a decimal numeral. */
  lemma DecimalIsInjective(m: int, n: int)
    requires Decimal(m) == Decimal(n)
    ensures m == n
  {
    DecimalSign(m);
    DecimalSign(n);
    if m < 0 {
      NegativeIsInjective(m, n);
    } else {
      NumeralIsInjective(m, n, 10);
    }
  }

  lemma NegativeIsInjective(m: int, n: int)
    requires m < 0 && n < 0 && Decimal(m) == Decimal(n)
    ensures m == n
  {
    SameNegative(-m, -n);
  }

  lemma SameNegative(m: nat, n: nat)
    requires "-" + Numeral(m, 10) == "-" + Numeral(n, 10)
    ensures m == n
  {
    SameTail("-", Numeral(m, 10), Numeral(n, 10));
    NumeralIsInjective(m, n, 10);
  }

  lemma PaddedIsInjective(m: nat, n: nat, base: nat, width: nat)
    requires 2 <= base <= 16 && Padded(m, base, width) == Padded(n, base, width)
    ensures m == n
  {
    ValueOfPadded(m, base, width);
    ValueOfPadded(n, base, width);
  }
}
