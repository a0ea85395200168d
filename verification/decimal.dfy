/** Decimal text of integers: Go's `strconv.Atoi` as used by the control
    channel, and the integer and one-decimal printing used in replies. */
module Decimal {
  import opened Common

  /** Range of Go's `int` on a 64-bit platform. */
  const MinInt: int := -0x8000_0000_0000_0000
  const MaxInt: int := 0x7fff_ffff_ffff_ffff

  predicate IsDigit(c: char)
  {
    '0' <= c <= '9'
  }

  predicate AllDigits(s: string)
  {
    forall i :: 0 <= i < |s| ==> IsDigit(s[i])
  }

  function DigitValue(c: char): (d: nat)
    requires IsDigit(c)
    ensures d < 10
  {
    (c as int) - ('0' as int)
  }

  function DigitChar(d: nat): (c: char)
    requires d < 10
    ensures IsDigit(c) && DigitValue(c) == d
  {
    (('0' as int) + d) as char
  }

  /** Value of a digit string read most significant digit first. */
  function DigitsValue(s: string): nat
    requires AllDigits(s)
  {
    if |s| == 0 then 0 else DigitsValue(s[..|s| - 1]) * 10 + DigitValue(s[|s| - 1])
  }

  /** Splits an optional leading '+' or '-' from a numeral: (negative?, digits). */
  function SplitSign(s: string): (r: (bool, string))
    ensures |r.1| <= |s|
  {
    if |s| > 0 && (s[0] == '+' || s[0] == '-') then (s[0] == '-', s[1..]) else (false, s)
  }

  /** The text is an optional sign followed by at least one decimal digit. */
  predicate Numeral(s: string)
  {
    var body := SplitSign(s).1;
    |body| > 0 && AllDigits(body)
  }

  /** The integer a numeral denotes, before the range check. */
  function NumeralValue(s: string): int
    requires Numeral(s)
  {
    var (negative, body) := SplitSign(s);
    var magnitude: int := DigitsValue(body);
    if negative then -magnitude else magnitude
  }

  /** `strconv.Atoi`: an optional sign and one or more decimal digits, with
      no surrounding spaces, whose value fits a 64-bit `int`. Leading zeros
      and a '+' sign are accepted and normalised away; '-' is accepted too,
      so a negative count reaches the caller. */
  function Atoi(s: string): (r: Option<int>)
    ensures r.Some? <==> Numeral(s) && MinInt <= NumeralValue(s) <= MaxInt
    ensures r.Some? ==> r.value == NumeralValue(s)
    ensures r.Some? ==> |s| > 0 && IsDigit(s[|s| - 1])
    ensures r.Some? && r.value < 0 ==> s[0] == '-'
  {
    if !Numeral(s) then None
    else
      var v := NumeralValue(s);
      if MinInt <= v <= MaxInt then Some(v) else None
  }

  /** Canonical decimal text of a natural number (Go's `strconv.Itoa` for n >= 0). */
  function NatToString(n: nat): (r: string)
    ensures |r| > 0 && AllDigits(r)
    ensures DigitsValue(r) == n
    ensures r[0] == '0' ==> n == 0
    decreases n
  {
    if n < 10 then [DigitChar(n)]
    else
      var prefix := NatToString(n / 10);
      var r := prefix + [DigitChar(n % 10)];
      assert r[..|r| - 1] == prefix;
      r
  }

  /** Canonical decimal text of an integer (`strconv.Itoa`). */
  function Itoa(i: int): string
  {
    if i < 0 then "-" + NatToString(-i) else NatToString(i)
  }

  /** Reading back the canonical text of any 64-bit integer gives that integer. */
  lemma AtoiItoa(i: int)
    requires MinInt <= i <= MaxInt
    ensures Atoi(Itoa(i)) == Some(i)
  {
    var t := Itoa(i);
    if i < 0 {
      assert t[0] == '-' && t[1..] == NatToString(-i);
    } else {
      assert t[0] != '+' && t[0] != '-';
    }
  }

  /** "%.1f" of a value given in tenths. */
  function FormatTenths(tenths: nat): (r: string)
    ensures |r| >= 3 && r[|r| - 2] == '.' && IsDigit(r[|r| - 1])
    ensures AllDigits(r[..|r| - 2])
    ensures DigitsValue(r[..|r| - 2]) * 10 + DigitValue(r[|r| - 1]) == tenths
  {
    var whole := NatToString(tenths / 10);
    var r := whole + "." + [DigitChar(tenths % 10)];
    assert r[..|r| - 2] == whole;
    r
  }

  /** The numerals "007" and "+5" are read as 7 and 5, whose canonical
      text is "7" and "5"; signed and plain numerals read as expected. */
  lemma AtoiNormalises()
    ensures Atoi("007") == Some(7) && Itoa(7) == "7"
    ensures Atoi("+5") == Some(5) && Itoa(5) == "5"
    ensures Atoi("-3") == Some(-3) && Atoi("-1") == Some(-1) && Atoi("11") == Some(11)
  {
    assert SplitSign("007").1 == "007";
    assert "007"[..2] == "00" && "00"[..1] == "0" && "0"[..0] == "";
    assert DigitsValue("007") == 7;
    assert SplitSign("+5").1 == "5";
    assert "5"[..0] == "";
    assert SplitSign("-3").1 == "3";
    assert "3"[..0] == "";
    assert SplitSign("-1").1 == "1";
    assert "1"[..0] == "";
    assert SplitSign("11").1 == "11";
    assert "11"[..1] == "1";
  }

  /** Atoi rejects the empty string, surrounding spaces and a bare sign. */
  lemma AtoiRejects()
    ensures Atoi("") == None && Atoi("5 ") == None && Atoi(" 5") == None && Atoi("-") == None
  {
    assert !IsDigit(' ');
    assert SplitSign("5 ").1 == "5 ";
    assert SplitSign(" 5").1 == " 5";
  }
}
