/** Positional numerals for the style identifiers and the colour channels.

    Every reusable CSS class is named by a letter followed by its index in
    lowercase hexadecimal (`boost::format` with `%|1$x|`); colour channels are
    written as decimal integers. Both are the same positional notation, so it is
    defined once, for any base from 2 to 16, and proved to be a bijection between
    naturals and canonical digit strings (no leading zero).
 */
module Numerals {

  /** The character of digit value `v`, lowercase for 10..15. */
  function Digit(v: nat): (c: char)
    requires v < 16
    ensures DigitValue(c) == v
  {
    if v < 10 then ('0' as int + v) as char else ('a' as int + (v - 10)) as char
  }

  /** The value of a lowercase digit character, or -1 for any other character. */
  function DigitValue(c: char): (v: int)
    ensures -1 <= v < 16
  {
    if '0' <= c <= '9' then c as int - '0' as int
    else if 'a' <= c <= 'f' then c as int - 'a' as int + 10
    else -1
  }

  predicate IsDigitOf(c: char, base: nat)
  {
    0 <= DigitValue(c) < base
  }

  predicate AllDigits(s: string, base: nat)
  {
    forall i :: 0 <= i < |s| ==> IsDigitOf(s[i], base)
  }

  /** A non-empty digit string without a leading zero, except "0" itself. */
  predicate Canonical(s: string, base: nat)
  {
    |s| >= 1 && AllDigits(s, base) && (s[0] == '0' ==> |s| == 1)
  }

  /** Euclidean division by a base, as the numeral recursion uses it. */
  lemma DivideByBase(n: nat, base: nat)
    requires 2 <= base <= 16
    ensures n == (n / base) * base + n % base
    ensures 0 <= n % base < base
    ensures n >= base ==> 1 <= n / base < n
  {
  }

  /** Division undoes appending a digit. */
  lemma DivideDigitOff(v: nat, d: nat, base: nat)
    requires 2 <= base <= 16 && d < base
    ensures (v * base + d) / base == v && (v * base + d) % base == d
    ensures v >= 1 ==> v * base + d >= base
  {
  }

  /** The numeral of `n` in `base`, most significant digit first. */
  function Numeral(n: nat, base: nat): (s: string)
    requires 2 <= base <= 16
    ensures Canonical(s, base)
    ensures s[0] == '0' <==> n == 0
    decreases n
  {
    if n < base then [Digit(n)]
    else
      DivideByBase(n, base);
      Numeral(n / base, base) + [Digit(n % base)]
  }

  /** The value denoted by a digit string (the reading side of `Numeral`). */
  function NumeralValue(s: string, base: nat): nat
    requires 2 <= base <= 16
    requires AllDigits(s, base)
  {
    if s == [] then 0
    else NumeralValue(s[..|s| - 1], base) * base + DigitValue(s[|s| - 1])
  }

  /** Reading a rendered numeral gives back the number. */
  lemma {:induction false} ValueOfNumeral(n: nat, base: nat)
    requires 2 <= base <= 16
    ensures NumeralValue(Numeral(n, base), base) == n
    decreases n
  {
    var s := Numeral(n, base);
    if n >= base {
      DivideByBase(n, base);
      var p := Numeral(n / base, base);
      assert s[..|s| - 1] == p;
      ValueOfNumeral(n / base, base);
    }
  }

  lemma DigitOfValue(c: char)
    requires 0 <= DigitValue(c)
    ensures Digit(DigitValue(c)) == c
  {
  }

  /** A digit string that does not start with '0' denotes a positive number. */
  lemma {:induction false} LeadingDigitPositive(s: string, base: nat)
    requires 2 <= base <= 16
    requires |s| >= 1 && AllDigits(s, base) && s[0] != '0'
    ensures NumeralValue(s, base) >= 1
    decreases |s|
  {
    if |s| == 1 {
      assert s[..0] == [];
    } else {
      var p := s[..|s| - 1];
      assert p[0] == s[0];
      LeadingDigitPositive(p, base);
    }
  }

  /** Every canonical digit string is the numeral of the number it denotes: the
      rendering is onto the canonical strings, so it is a bijection. */
  lemma {:induction false} NumeralOfValue(s: string, base: nat)
    requires 2 <= base <= 16
    requires Canonical(s, base)
    ensures Numeral(NumeralValue(s, base), base) == s
    decreases |s|
  {
    var n := NumeralValue(s, base);
    var d := DigitValue(s[|s| - 1]);
    DigitOfValue(s[|s| - 1]);
    if |s| == 1 {
      assert s[..0] == [];
      assert n == d;
      assert Numeral(n, base) == [s[0]];
    } else {
      var p := s[..|s| - 1];
      assert p[0] == s[0];
      assert Canonical(p, base);
      LeadingDigitPositive(p, base);
      var v := NumeralValue(p, base);
      assert n == v * base + d;
      DivideDigitOff(v, d, base);
      NumeralOfValue(p, base);
      assert Numeral(n, base) == Numeral(v, base) + [Digit(d)];
      assert s == p + [s[|s| - 1]];
    }
  }

  /** Distinct numbers get distinct numerals. */
  lemma NumeralInjective(m: nat, n: nat, base: nat)
    requires 2 <= base <= 16
    ensures Numeral(m, base) == Numeral(n, base) ==> m == n
  {
    ValueOfNumeral(m, base);
    ValueOfNumeral(n, base);
  }

  function Pow(b: nat, k: nat): nat
  {
    if k == 0 then 1 else b * Pow(b, k - 1)
  }

  /** A number below base^k needs at most k digits. */
  lemma {:induction false} NumeralLength(n: nat, base: nat, k: nat)
    requires 2 <= base <= 16
    requires 1 <= k && n < Pow(base, k)
    ensures |Numeral(n, base)| <= k
    decreases k
  {
    if n >= base {
      assert Pow(base, 1) == base;
      assert k >= 2;
      DivideByBase(n, base);
      QuotientBelow(n, base, Pow(base, k - 1));
      NumeralLength(n / base, base, k - 1);
    }
  }

  lemma QuotientBelow(n: nat, base: nat, p: nat)
    requires 2 <= base && n < base * p
    ensures n / base < p
  {
    assert base * (n / base) <= n;
  }

  /** Lowercase hexadecimal, as `std::hex` writes a non-negative integer. */
  function Hex(n: nat): string
  {
    Numeral(n, 16)
  }

  /** Decimal, as `operator<<` writes a non-negative `int`. */
  function Dec(n: nat): string
  {
    Numeral(n, 10)
  }

  const LongLongMin: int := -0x8000_0000_0000_0000
  const LongLongMax: int := 0x7fff_ffff_ffff_ffff
  const TwoTo64: int := 0x1_0000_0000_0000_0000

  /** The range of a C++ `long long`, the type of every style index. */
  predicate IsLongLong(x: int)
  {
    LongLongMin <= x <= LongLongMax
  }

  /** The hex text of a style index as `%x` writes a `long long`: the value is
      reinterpreted as unsigned 64-bit (two's complement) before it is written. */
  function IdHex(id: int): (s: string)
    requires IsLongLong(id)
    ensures 0 <= id ==> s == Hex(id)
    ensures id < 0 ==> s == Hex(id + TwoTo64)
  {
    Hex(id % TwoTo64)
  }

  /** Every index in range is written with 1 to 16 lowercase hex digits. */
  lemma IdHexShape(id: int)
    requires IsLongLong(id)
    ensures 1 <= |IdHex(id)| <= 16
    ensures Canonical(IdHex(id), 16)
  {
    assert Pow(16, 1) == 0x10;
    assert Pow(16, 2) == 0x100;
    assert Pow(16, 3) == 0x1000;
    assert Pow(16, 4) == 0x10000;
    assert Pow(16, 5) == 0x100000;
    assert Pow(16, 6) == 0x1000000;
    assert Pow(16, 7) == 0x10000000;
    assert Pow(16, 8) == 0x100000000;
    assert Pow(16, 9) == 0x1000000000;
    assert Pow(16, 10) == 0x10000000000;
    assert Pow(16, 11) == 0x100000000000;
    assert Pow(16, 12) == 0x1000000000000;
    assert Pow(16, 13) == 0x10000000000000;
    assert Pow(16, 14) == 0x100000000000000;
    assert Pow(16, 15) == 0x1000000000000000;
    assert Pow(16, 16) == 0x10000000000000000;
    NumeralLength(id % TwoTo64, 16, 16);
  }

  /** Two indices share a hex text only if they are the same index. */
  lemma IdHexInjective(i: int, j: int)
    requires IsLongLong(i) && IsLongLong(j)
    ensures IdHex(i) == IdHex(j) ==> i == j
  {
    var u := if 0 <= i then i else i + TwoTo64;
    var v := if 0 <= j then j else j + TwoTo64;
    NumeralInjective(u, v, 16);
  }

  /** Concrete cases: index 10 is written "a"; index -1 is written as the
      all-ones 64-bit pattern. */
  lemma IdHexExamples()
    ensures IdHex(10) == "a"
    ensures IdHex(255) == "ff"
    ensures IdHex(-1) == "ffffffffffffffff"
  {
    assert Numeral(15, 16) == "f";
    assert Numeral(255, 16) == "ff";
    assert Numeral(0xfff, 16) == "fff";
    assert Numeral(0xffff, 16) == "ffff";
    assert Numeral(0xf_ffff, 16) == "fffff";
    assert Numeral(0xff_ffff, 16) == "ffffff";
    assert Numeral(0xfff_ffff, 16) == "fffffff";
    assert Numeral(0xffff_ffff, 16) == "ffffffff";
    assert Numeral(0xf_ffff_ffff, 16) == "fffffffff";
    assert Numeral(0xff_ffff_ffff, 16) == "ffffffffff";
    assert Numeral(0xfff_ffff_ffff, 16) == "fffffffffff";
    assert Numeral(0xffff_ffff_ffff, 16) == "ffffffffffff";
    assert Numeral(0xf_ffff_ffff_ffff, 16) == "fffffffffffff";
    assert Numeral(0xff_ffff_ffff_ffff, 16) == "ffffffffffffff";
    assert Numeral(0xfff_ffff_ffff_ffff, 16) == "fffffffffffffff";
    assert Numeral(0xffff_ffff_ffff_ffff, 16) == "ffffffffffffffff";
  }
}
