/** 2023/day1.go: each line's calibration value is made of its first and its
    last digit, and the solver sums the values of all lines. A line is a
    sequence of runes; a Dafny `char` stands for one rune. */
module Trebuchet {
  import opened Wrappers
  import Strconv

  /** `strToInt(chars, i)`: `Atoi` of the single rune at `i`, which succeeds
      exactly on an ASCII digit (a lone sign is not a number). */
  function StrToInt(chars: seq<char>, i: nat): (r: (int, bool))
    requires i < |chars|
    ensures r.1 <==> Strconv.IsDecimalDigit(chars[i])
    ensures r.1 ==> r.0 == Strconv.DigitValue(chars[i])
    ensures !r.1 ==> r.0 == 0
  {
    Strconv.AllDigitsEach([chars[i]]);
    match Strconv.Atoi([chars[i]])
    case None => (0, false)
    case Some(num) => (num, true)
  }

  /** The index of the leftmost digit of `s`, or -1 when it has none. */
  function FirstDigitAt(s: seq<char>): (i: int)
    ensures -1 <= i < |s|
    ensures i >= 0 ==> Strconv.IsDecimalDigit(s[i])
    ensures forall j :: 0 <= j < |s| && (i < 0 || j < i) ==> !Strconv.IsDecimalDigit(s[j])
  {
    if |s| == 0 then -1
    else if Strconv.IsDecimalDigit(s[0]) then 0
    else
      var k := FirstDigitAt(s[1..]);
      if k < 0 then -1 else k + 1
  }

  /** The index of the rightmost digit of `s`, or -1 when it has none. */
  function LastDigitAt(s: seq<char>): (i: int)
    ensures -1 <= i < |s|
    ensures i >= 0 ==> Strconv.IsDecimalDigit(s[i])
    ensures forall j :: 0 <= j < |s| && j > i ==> !Strconv.IsDecimalDigit(s[j])
  {
    if |s| == 0 then -1
    else if Strconv.IsDecimalDigit(s[|s| - 1]) then |s| - 1
    else LastDigitAt(s[..|s| - 1])
  }

  /** `pickFirstDigit`: the value of the leftmost digit, or `(0, false)` when
      the line has no digit. */
  method PickFirstDigit(input: seq<char>) returns (num: int, ok: bool)
    ensures ok <==> FirstDigitAt(input) >= 0
    ensures ok ==> num == Strconv.DigitValue(input[FirstDigitAt(input)])
    ensures !ok ==> num == 0
  {
    for pos := 0 to |input|
      invariant forall j :: 0 <= j < pos ==> !Strconv.IsDecimalDigit(input[j])
    {
      var (n, found) := StrToInt(input, pos);
      if found {
        return n, true;
      }
    }
    return 0, false;
  }

  /** The runes of `s` in reverse order. */
  function Reverse(s: seq<char>): (r: seq<char>)
    ensures |r| == |s|
    ensures forall i :: 0 <= i < |s| ==> r[i] == s[|s| - 1 - i]
  {
    if |s| == 0 then [] else [s[|s| - 1]] + Reverse(s[..|s| - 1])
  }

  /** Reversing twice gives back the text. */
  lemma ReverseReverse(s: seq<char>)
    ensures Reverse(Reverse(s)) == s
  {
  }

  /** `reverseString`: moves the last rune of what is left of the input to
      the end of the result until the input is used up. */
  method ReverseString(input: seq<char>) returns (r: seq<char>)
    ensures r == Reverse(input)
  {
    r := [];
    var rest := input;
    while |rest| > 0
      invariant |r| + |rest| == |input|
      invariant rest == input[..|rest|]
      invariant forall k :: 0 <= k < |r| ==> r[k] == input[|input| - 1 - k]
    {
      var i := |rest| - 1;
      r := r + rest[i..];
      rest := rest[..i];
    }
  }

  /** The first digit of the reversed text is the last digit of the text. */
  lemma FirstDigitOfReverse(s: seq<char>)
    ensures FirstDigitAt(Reverse(s)) == (if LastDigitAt(s) < 0 then -1 else |s| - 1 - LastDigitAt(s))
  {
    FirstDigitOfMirror(s, Reverse(s));
  }

  /** The same for any `r` that holds the runes of `s` back to front. */
  lemma FirstDigitOfMirror(s: seq<char>, r: seq<char>)
    requires |r| == |s| && forall i :: 0 <= i < |s| ==> r[i] == s[|s| - 1 - i]
    ensures FirstDigitAt(r) == (if LastDigitAt(s) < 0 then -1 else |s| - 1 - LastDigitAt(s))
  {
    var n := |s|;
    var i := FirstDigitAt(r);
    var l := LastDigitAt(s);
    if l >= 0 {
      assert r[n - 1 - l] == s[l];
      assert i >= 0;
      assert r[i] == s[n - 1 - i];
      assert n - 1 - i <= l;
      assert i <= n - 1 - l;
    }
  }

  /** The calibration value of a line: ten times its first digit plus its
      last digit, or nothing when it has no digit. */
  function CalibrationValue(line: seq<char>): Option<int> {
    var f := FirstDigitAt(line);
    if f < 0 then None
    else Some(10 * Strconv.DigitValue(line[f]) + Strconv.DigitValue(line[LastDigitAt(line)]))
  }

  /** `constructValue`: the first digit, then the first digit of the reversed
      line, combined as a two-digit number; a line without digits is an error. */
  method ConstructValue(line: seq<char>) returns (value: int, ok: bool)
    ensures ok <==> CalibrationValue(line).Some?
    ensures ok ==> value == CalibrationValue(line).value
    ensures !ok ==> value == 0
  {
    var first, found := PickFirstDigit(line);
    if !found {
      return 0, false;
    }
    var reversed := ReverseString(line);
    FirstDigitOfReverse(line);
    var last, _ := PickFirstDigit(reversed);
    assert last == Strconv.DigitValue(line[LastDigitAt(line)]);
    value, ok := 10 * first + last, true;
  }

  /** A line fails exactly when none of its runes is a digit; a value lies in
      [0, 99] and its tens digit is the line's first digit, its units digit
      the last. */
  lemma CalibrationValueMeaning(line: seq<char>)
    ensures CalibrationValue(line).None? <==> forall j :: 0 <= j < |line| ==> !Strconv.IsDecimalDigit(line[j])
    ensures CalibrationValue(line).Some? ==> 0 <= CalibrationValue(line).value <= 99
    ensures CalibrationValue(line).Some? ==>
      exists i, k :: 0 <= i <= k < |line| && Strconv.IsDecimalDigit(line[i]) && Strconv.IsDecimalDigit(line[k]) &&
        CalibrationValue(line).value == 10 * Strconv.DigitValue(line[i]) + Strconv.DigitValue(line[k]) &&
        (forall j :: 0 <= j < i ==> !Strconv.IsDecimalDigit(line[j])) &&
        (forall j :: k < j < |line| ==> !Strconv.IsDecimalDigit(line[j]))
  {
    var f, l := FirstDigitAt(line), LastDigitAt(line);
    if f >= 0 {
      assert l >= f;
    }
  }

  /** A line with a single digit d has the value 11 d. */
  lemma SingleDigitValue(line: seq<char>, i: nat)
    requires i < |line| && Strconv.IsDecimalDigit(line[i])
    requires forall j :: 0 <= j < |line| && j != i ==> !Strconv.IsDecimalDigit(line[j])
    ensures CalibrationValue(line) == Some(11 * Strconv.DigitValue(line[i]))
  {
  }

  /** The sum of the calibration values, or nothing if some line has none. */
  function SumOfValues(lines: seq<seq<char>>): Option<int> {
    if |lines| == 0 then Some(0)
    else
      var v :- CalibrationValue(lines[0]);
      var rest :- SumOfValues(lines[1..]);
      Some(v + rest)
  }

  /** `sumCalibrationValues` over the lines of the document: the sum of their
      values; the first line without a digit aborts with `(0, error)`. */
  method SumCalibrationValues(lines: seq<seq<char>>) returns (sum: int, ok: bool)
    ensures ok <==> SumOfValues(lines).Some?
    ensures ok ==> sum == SumOfValues(lines).value
    ensures !ok ==> sum == 0
  {
    sum := 0;
    for i := 0 to |lines|
      invariant SumOfValues(lines[..i]) == Some(sum)
    {
      var value, found := ConstructValue(lines[i]);
      if !found {
        SumFails(lines, i);
        return 0, false;
      }
      SumAppend(lines[..i], lines[i]);
      assert lines[..i] + [lines[i]] == lines[..i + 1];
      sum := sum + value;
    }
    assert lines[..|lines|] == lines;
    ok := true;
  }

  /** Adding a line at the end adds its value. */
  lemma {:induction false} SumAppend(lines: seq<seq<char>>, line: seq<char>)
    requires SumOfValues(lines).Some? && CalibrationValue(line).Some?
    ensures SumOfValues(lines + [line]) == Some(SumOfValues(lines).value + CalibrationValue(line).value)
  {
    if |lines| > 0 {
      assert (lines + [line])[1..] == lines[1..] + [line];
      SumAppend(lines[1..], line);
    } else {
      assert lines + [line] == [line];
    }
  }

  /** One line without a value makes the whole sum fail. */
  lemma {:induction false} SumFails(lines: seq<seq<char>>, i: nat)
    requires i < |lines| && CalibrationValue(lines[i]).None?
    ensures SumOfValues(lines).None?
  {
    if i > 0 {
      SumFails(lines[1..], i - 1);
    }
  }

  /** The sum succeeds exactly when every line holds a digit. */
  lemma {:induction false} SumSucceeds(lines: seq<seq<char>>)
    ensures SumOfValues(lines).Some? <==> forall k :: 0 <= k < |lines| ==> CalibrationValue(lines[k]).Some?
  {
    if |lines| > 0 {
      SumSucceeds(lines[1..]);
      assert forall k :: 1 <= k < |lines| ==> lines[1..][k - 1] == lines[k];
    }
  }
}
