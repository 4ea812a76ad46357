/** What the solvers use of Go's `strconv`: `Atoi` on base-10 text and, as its
    inverse, decimal formatting of an integer. Go's `int` is 64 bits wide; the
    range error of `Atoi` is not modelled, integers here are unbounded. */
module Strconv {
  import opened Wrappers

  predicate IsDecimalDigit(c: char) {
    '0' <= c <= '9'
  }

  /** Every character of `s` is a digit, checked from the last one back. */
  predicate AllDigits(s: string) {
    |s| == 0 || (AllDigits(s[..|s| - 1]) && IsDecimalDigit(s[|s| - 1]))
  }

  /** `AllDigits` says the same as a check of every index. */
  lemma {:induction false} AllDigitsEach(s: string)
    ensures AllDigits(s) <==> forall i :: 0 <= i < |s| ==> IsDecimalDigit(s[i])
  {
    if |s| > 0 {
      var front := s[..|s| - 1];
      AllDigitsEach(front);
      assert forall i :: 0 <= i < |front| ==> front[i] == s[i];
    }
  }

  function DigitValue(c: char): (d: nat)
    requires IsDecimalDigit(c)
    ensures d < 10
  {
    c as int - '0' as int
  }

  function DigitChar(d: nat): (c: char)
    requires d < 10
    ensures IsDecimalDigit(c) && DigitValue(c) == d
  {
    ('0' as int + d) as char
  }

  function Pow10(k: nat): (p: nat)
    ensures p >= 1
  {
    if k == 0 then 1 else 10 * Pow10(k - 1)
  }

  /** The value of a digit string, most significant digit first; it has at
      most |s| digits. */
  function DecimalValue(s: string): (n: nat)
    requires AllDigits(s)
    ensures n < Pow10(|s|)
  {
    if |s| == 0 then 0
    else
      var high := DecimalValue(s[..|s| - 1]);
      assert high <= Pow10(|s| - 1) - 1;
      assert high * 10 <= Pow10(|s|) - 10;
      high * 10 + DigitValue(s[|s| - 1])
  }

  /** A digit string without a leading zero has exactly |s| digits. */
  lemma {:induction false} DecimalValueLower(s: string)
    requires AllDigits(s) && |s| > 0 && s[0] != '0'
    ensures DecimalValue(s) >= Pow10(|s| - 1)
  {
    if |s| > 1 {
      var prefix := s[..|s| - 1];
      assert prefix[0] == s[0];
      DecimalValueLower(prefix);
    }
  }

  /** Go's `strconv.Atoi` on text that fits in an `int`: an optional `+` or
      `-` followed by at least one ASCII digit; anything else is an error. */
  function Atoi(s: string): (r: Option<int>)
    ensures |s| > 0 && AllDigits(s) ==> r == Some(DecimalValue(s))
    ensures r.Some? ==> |s| > 0
    ensures |s| > 1 && s[0] == '-' && AllDigits(s[1..]) ==> r == Some(-(DecimalValue(s[1..]) as int))
  {
    if |s| > 0 && (s[0] == '+' || s[0] == '-') then
      AllDigitsEach(s);
      var body := s[1..];
      if |body| > 0 && AllDigits(body) then
        Some(if s[0] == '-' then -(DecimalValue(body) as int) else DecimalValue(body))
      else None
    else if |s| > 0 && AllDigits(s) then Some(DecimalValue(s))
    else None
  }

  /** Decimal digits of a natural number, without leading zeros. */
  function Digits(n: nat): (s: string)
    ensures |s| > 0 && AllDigits(s)
    ensures n > 0 ==> s[0] != '0'
  {
    if n < 10 then [DigitChar(n)]
    else
      var high := Digits(n / 10);
      assert (high + [DigitChar(n % 10)])[0] == high[0];
      high + [DigitChar(n % 10)]
  }

  /** `strconv.Itoa`: the inverse of `Atoi`. */
  function FormatInt(n: int): string {
    if n < 0 then "-" + Digits(-n) else Digits(n)
  }

  lemma {:induction false} DigitsValue(n: nat)
    ensures DecimalValue(Digits(n)) == n
  {
    if n >= 10 {
      DigitsValue(n / 10);
      var s := Digits(n);
      assert s[..|s| - 1] == Digits(n / 10);
    }
  }

  /** Formatting then parsing gives back the number. */
  lemma AtoiFormatInt(n: int)
    ensures Atoi(FormatInt(n)) == Some(n)
  {
    if n < 0 {
      DigitsValue(-n);
      assert FormatInt(n)[1..] == Digits(-n);
    } else {
      DigitsValue(n);
    }
  }
}
