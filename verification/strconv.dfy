/** The part of Go's `strconv.ParseInt(s, 0, 64)` the parser depends on: the
    integer literal reader. With base 0 a leading `0` selects octal (Go's
    base prefix rule), every other literal is decimal, and a value that does
    not fit in an `int64` is an error. Only literals made of decimal digits
    are decoded, which are the only INTEGER literals the lexer produces;
    any other spelling is reported as an error. */
module Strconv {
  import opened Token
  import opened Wrappers

  /** Go's `int64`. */
  type Int64 = x: int | -0x8000_0000_0000_0000 <= x < 0x8000_0000_0000_0000

  const MaxInt64: int := 0x7FFF_FFFF_FFFF_FFFF

  predicate IsDigit(c: Byte)
  {
    '0' <= c <= '9'
  }

  predicate AllDigits(s: ByteString)
  {
    forall i :: 0 <= i < |s| ==> IsDigit(s[i])
  }

  /** Every digit is below `base`. */
  predicate DigitsBelow(s: ByteString, base: nat)
    requires AllDigits(s)
  {
    forall i :: 0 <= i < |s| ==> DigitValue(s[i]) < base
  }

  function DigitValue(c: Byte): nat
    requires IsDigit(c)
  {
    c as int - '0' as int
  }

  /** The value of a digit string in the given base, most significant digit
      first, the way `ParseUint` accumulates it. */
  function DigitsValue(s: ByteString, base: nat): nat
    requires AllDigits(s)
  {
    if |s| == 0 then 0
    else DigitsValue(s[..|s| - 1], base) * base + DigitValue(s[|s| - 1])
  }

  /** `strconv.ParseInt(s, 0, 64)`: `None` stands for a non-nil error. */
  function ParseInt(s: ByteString): (r: Option<Int64>)
    ensures r.Some? ==> |s| > 0 && AllDigits(s)
    ensures r.Some? ==> 0 <= r.value <= MaxInt64
  {
    if |s| == 0 || !AllDigits(s) then None
    else if s[0] == '0' && |s| > 1 then
      // base 0 and a leading zero: the rest is octal, and 8 or 9 is a syntax error
      if !DigitsBelow(s[1..], 8) then None
      else InRange(DigitsValue(s[1..], 8))
    else InRange(DigitsValue(s, 10))
  }

  /** The range check of a 64-bit signed parse. */
  function InRange(v: nat): (r: Option<Int64>)
    ensures r.Some? <==> v <= MaxInt64
    ensures r.Some? ==> r.value == v
  {
    if v <= MaxInt64 then Some(v) else None
  }

  function DigitChar(d: nat): (c: Byte)
    requires d < 10
    ensures IsDigit(c) && DigitValue(c) == d
  {
    ('0' as int + d) as char
  }

  /** The canonical spelling of n in a base up to ten: no leading zeros, and
      "0" for zero. */
  function DigitsString(n: nat, base: nat): (s: ByteString)
    requires 2 <= base <= 10
    ensures |s| > 0 && AllDigits(s) && DigitsBelow(s, base)
    decreases n
  {
    if n < base then [DigitChar(n)]
    else DigitsString(n / base, base) + [DigitChar(n % base)]
  }

  lemma DigitsValueSnoc(t: ByteString, c: Byte, base: nat)
    requires AllDigits(t) && IsDigit(c)
    ensures AllDigits(t + [c])
    ensures DigitsValue(t + [c], base) == DigitsValue(t, base) * base + DigitValue(c)
  {
    assert (t + [c])[..|t|] == t;
  }

  lemma {:induction false} DigitsStringValue(n: nat, base: nat)
    requires 2 <= base <= 10
    ensures DigitsValue(DigitsString(n, base), base) == n
    decreases n
  {
    if n >= base {
      DigitsStringValue(n / base, base);
      DigitsStringStep(n, base);
    } else {
      DigitsStringBase(n, base);
    }
  }

  lemma DigitsStringBase(n: nat, base: nat)
    requires 2 <= base <= 10 && n < base
    ensures DigitsValue(DigitsString(n, base), base) == n
  {
    assert [DigitChar(n)][..0] == [];
  }

  lemma DigitsStringStep(n: nat, base: nat)
    requires 2 <= base <= 10 && n >= base
    requires DigitsValue(DigitsString(n / base, base), base) == n / base
    ensures DigitsValue(DigitsString(n, base), base) == n
  {
    var q, d := n / base, n % base;
    var t := DigitsString(q, base);
    var c := DigitChar(d);
    DigitsValueSnoc(t, c, base);
    assert DigitsString(n, base) == t + [c];
    DivMod(n, base, q, d);
  }

  /** Proof helper: Euclidean division, kept apart so that the nonlinear
      fact is proved without the surrounding context. */
  lemma DivMod(n: nat, base: nat, q: nat, d: nat)
    requires 2 <= base && q == n / base && d == n % base
    ensures q * base + d == n
  {
  }

  lemma {:induction false} DigitsStringLeadingDigit(n: nat, base: nat)
    requires 2 <= base <= 10
    ensures (DigitsString(n, base)[0] == '0') == (n == 0)
    decreases n
  {
    if n >= base {
      DigitsStringLeadingDigit(n / base, base);
    }
  }

  /** Every int64 value from 0 up reads back from its decimal spelling. */
  lemma ParseIntDecimal(n: nat)
    requires n <= MaxInt64
    ensures ParseInt(DigitsString(n, 10)) == Some(n)
  {
    DigitsStringValue(n, 10);
    DigitsStringLeadingDigit(n, 10);
  }

  /** A zero followed by the octal spelling of n reads back as n. */
  lemma ParseIntOctal(n: nat)
    requires n <= MaxInt64
    ensures ParseInt("0" + DigitsString(n, 8)) == Some(n)
  {
    var s := "0" + DigitsString(n, 8);
    assert s[1..] == DigitsString(n, 8);
    DigitsStringValue(n, 8);
  }

  /** A decimal spelling of a value past the int64 range is an error. */
  lemma ParseIntOverflow(n: nat)
    requires n > MaxInt64
    ensures ParseInt(DigitsString(n, 10)) == None
  {
    DigitsStringValue(n, 10);
    DigitsStringLeadingDigit(n, 10);
  }

  /** "010" is eight, "08" and "09" are errors, "0" and "00" are zero. */
  lemma ParseIntLeadingZeroExamples()
    ensures ParseInt("010") == Some(8)
    ensures ParseInt("08") == None && ParseInt("09") == None
    ensures ParseInt("0") == Some(0) && ParseInt("00") == Some(0)
    ensures ParseInt("") == None
  {
    assert "08"[1..][0] == '8' && "09"[1..][0] == '9';
    assert "010"[1..] == "10" && "10"[..1] == "1" && "1"[..0] == [];
    assert "00"[1..] == "0" && "0"[..0] == [];
  }

  /** The largest int64 is accepted, the next integer is not. */
  lemma ParseIntBounds()
    ensures ParseInt("9223372036854775807") == Some(MaxInt64)
    ensures ParseInt("9223372036854775808") == None
  {
    DigitsSpelling();
    ParseIntDecimal(MaxInt64);
    ParseIntOverflow(MaxInt64 + 1);
  }

  lemma DigitsSpelling()
    ensures DigitsString(MaxInt64, 10) == "9223372036854775807"
    ensures DigitsString(MaxInt64 + 1, 10) == "9223372036854775808"
  {
    assert DigitsString(9, 10) == "9";
    assert DigitsString(92, 10) == "92";
    assert DigitsString(922, 10) == "922";
    assert DigitsString(9223, 10) == "9223";
    assert DigitsString(92233, 10) == "92233";
    assert DigitsString(922337, 10) == "922337";
    assert DigitsString(9223372, 10) == "9223372";
    assert DigitsString(92233720, 10) == "92233720";
    assert DigitsString(922337203, 10) == "922337203";
    assert DigitsString(9223372036, 10) == "9223372036";
    assert DigitsString(92233720368, 10) == "92233720368";
    assert DigitsString(922337203685, 10) == "922337203685";
    assert DigitsString(9223372036854, 10) == "9223372036854";
    assert DigitsString(92233720368547, 10) == "92233720368547";
    assert DigitsString(922337203685477, 10) == "922337203685477";
    assert DigitsString(9223372036854775, 10) == "9223372036854775";
    assert DigitsString(92233720368547758, 10) == "92233720368547758";
    assert DigitsString(922337203685477580, 10) == "922337203685477580";
  }
}
