/** Decimal conversion as Go's `strconv.Itoa` and `strconv.Atoi` perform it on a 64-bit `int`. */
module Strconv {
  import opened Wrappers

  const MinInt64: int := -0x8000_0000_0000_0000
  const MaxInt64: int := 0x7fff_ffff_ffff_ffff

  predicate IsDigit(c: char) { '0' <= c <= '9' }

  predicate AllDigits(s: string) { forall i :: 0 <= i < |s| ==> IsDigit(s[i]) }

  /** The ten decimal digits, in order. */
  const DecimalDigits: string := "0123456789"

  lemma DecimalDigitsExact(c: char)
    ensures c in DecimalDigits <==> IsDigit(c)
  {
    assert c in DecimalDigits <==> c == '0' || c == '1' || c == '2' || c == '3' || c == '4' || c == '5' || c == '6' || c == '7' || c == '8' || c == '9';
  }

  function DigitChar(d: nat): (c: char)
    requires d < 10
    ensures IsDigit(c) && c as int - '0' as int == d
  {
    ('0' as int + d) as char
  }

  /** The decimal digits of `n`, most significant first, without leading zeros. */
  function NatDigits(n: nat): (s: string)
    ensures |s| >= 1 && AllDigits(s)
    ensures n >= 10 ==> s[0] != '0'
  {
    if n < 10 then [DigitChar(n)] else NatDigits(n / 10) + [DigitChar(n % 10)]
  }

  /** Go's `strconv.Itoa`: a '-' for negative numbers, then the decimal digits. */
  function Itoa(n: int): (s: string)
    ensures |s| >= 1
    ensures n >= 0 <==> IsDigit(s[0])
    ensures n < 0 <==> s[0] == '-'
  {
    if n < 0 then "-" + NatDigits(-n) else NatDigits(n)
  }

  /** `Itoa` writes only digits and a minus sign, so it never produces a separator. */
  lemma ItoaNoOther(n: int, c: char)
    requires !IsDigit(c) && c != '-'
    ensures c !in Itoa(n)
  {
    var s := Itoa(n);
    if n < 0 {
      assert forall i :: 1 <= i < |s| ==> s[i] == NatDigits(-n)[i - 1];
    }
    assert forall i :: 0 <= i < |s| ==> s[i] != c;
  }

  /** The value of a string of decimal digits. */
  function DigitsValue(s: string): (v: nat)
    requires AllDigits(s)
  {
    if s == [] then 0
    else DigitsValue(s[..|s| - 1]) * 10 + (s[|s| - 1] as int - '0' as int)
  }

  lemma {:induction false} DigitsValueOfNatDigits(n: nat)
    ensures DigitsValue(NatDigits(n)) == n
  {
    if n >= 10 {
      DigitsValueOfNatDigits(n / 10);
      var s := NatDigits(n);
      assert s[..|s| - 1] == NatDigits(n / 10);
    }
  }

  datatype NumError = Syntax | Range

  /** Go's `strconv.Atoi`: an optional sign, at least one decimal digit and nothing else;
      a value outside the 64-bit range is a range error. */
  function Atoi(s: string): (r: Result<int, NumError>)
    ensures r.Ok? ==> MinInt64 <= r.value <= MaxInt64
    ensures s == [] ==> r == Err(Syntax)
  {
    if s == [] then Err(Syntax)
    else
      var neg := s[0] == '-';
      var body := if s[0] == '-' || s[0] == '+' then s[1..] else s;
      if body == [] || !AllDigits(body) then Err(Syntax)
      else
        var v: int := DigitsValue(body);
        var n := if neg then -v else v;
        if n < MinInt64 || n > MaxInt64 then Err(Range) else Ok(n)
  }

  /** `Atoi` reads back whatever `Itoa` writes, for every 64-bit integer. */
  lemma AtoiItoa(n: int)
    requires MinInt64 <= n <= MaxInt64
    ensures Atoi(Itoa(n)) == Ok(n)
  {
    if n < 0 {
      DigitsValueOfNatDigits(-n);
      assert Itoa(n)[1..] == NatDigits(-n);
    } else {
      DigitsValueOfNatDigits(n);
    }
  }

  /** A string holding anything but a sign and digits is rejected. */
  lemma AtoiRejectsNonDigit(s: string, i: nat)
    requires 0 < i < |s| && !IsDigit(s[i])
    ensures Atoi(s) == Err(Syntax)
  {
    if s[0] == '-' || s[0] == '+' {
      assert s[1..][i - 1] == s[i];
    }
  }
}
