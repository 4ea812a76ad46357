/** utils/utils.go: character classes, integer ranges, digit counting and
    reading a decimal number out of a byte slice. Bytes are characters here. */
module Utils {
  import opened Wrappers
  import Strconv

  /** `IsLetter`: an ASCII letter. */
  predicate IsLetter(c: char) {
    'a' <= c <= 'z' || 'A' <= c <= 'Z'
  }

  /** `IsDigit`: an ASCII decimal digit. */
  predicate IsDigit(c: char) {
    '0' <= c <= '9'
  }

  /** The digits are exactly the ten characters 0 to 9, and no digit is a
      letter. */
  lemma DigitClass(c: char)
    ensures IsDigit(c) <==> c in "0123456789"
    ensures IsDigit(c) ==> !IsLetter(c)
  {
    if IsDigit(c) {
      var d := c as int - '0' as int;
      assert d in {0, 1, 2, 3, 4, 5, 6, 7, 8, 9};
      assert c == "0123456789"[d];
    }
  }

  /** `MakeRange(min, max)`: the integers of [min, max) in ascending order
      (Go's `make` panics on a negative length, which callers never ask for). */
  method MakeRange(min: int, max: int) returns (r: seq<int>)
    requires min <= max
    ensures |r| == max - min
    ensures forall i :: 0 <= i < |r| ==> r[i] == min + i
  {
    var a := new int[max - min];
    for i := 0 to a.Length
      invariant forall k :: 0 <= k < i ==> a[k] == min + k
    {
      a[i] := min + i;
    }
    r := a[..];
  }

  /** The values of a range are the integers from `min` up to `max`. */
  lemma RangeMembers(r: seq<int>, min: int, max: int)
    requires min <= max && |r| == max - min
    requires forall i :: 0 <= i < |r| ==> r[i] == min + i
    ensures forall x :: x in r <==> min <= x < max
  {
    forall x | min <= x < max
      ensures x in r
    {
      assert r[x - min] == x;
    }
  }

  /** `LengthOfInt`: the number of decimal digits of a positive number.
      The source takes `int(math.Log10(n)) + 1`, which is undefined at 0. */
  function LengthOfInt(n: int): (k: nat)
    requires n >= 1
    ensures k >= 1 && Strconv.Pow10(k - 1) <= n < Strconv.Pow10(k)
  {
    if n < 10 then 1 else 1 + LengthOfInt(n / 10)
  }

  /** The digit count is the only k with 10^(k-1) <= n < 10^k. */
  lemma {:induction false} LengthOfIntUnique(n: int, k: nat)
    requires n >= 1 && k >= 1
    requires Strconv.Pow10(k - 1) <= n < Strconv.Pow10(k)
    ensures LengthOfInt(n) == k
  {
    var j := LengthOfInt(n);
    if j < k {
      Pow10Monotone(j, k - 1);
    } else if j > k {
      Pow10Monotone(k, j - 1);
    }
  }

  lemma {:induction false} Pow10Monotone(i: nat, j: nat)
    requires i <= j
    ensures Strconv.Pow10(i) <= Strconv.Pow10(j)
    decreases j
  {
    if i < j {
      Pow10Monotone(i, j - 1);
    }
  }

  /** A digit run without a leading zero has as many digits as its value. */
  lemma LengthOfDigitRun(s: string)
    requires |s| > 0 && Strconv.AllDigits(s) && s[0] != '0'
    ensures Strconv.DecimalValue(s) >= 1
    ensures LengthOfInt(Strconv.DecimalValue(s)) == |s|
  {
    Strconv.DecimalValueLower(s);
    LengthOfIntUnique(Strconv.DecimalValue(s), |s|);
  }

  /** The end of the digit run that starts at `pos`. */
  function DigitRunEnd(data: string, pos: nat): (e: nat)
    requires pos <= |data|
    ensures pos <= e <= |data|
    ensures e == |data| || !IsDigit(data[e])
    decreases |data| - pos
  {
    if pos < |data| && IsDigit(data[pos]) then DigitRunEnd(data, pos + 1) else pos
  }

  /** Every character of the run is a digit. */
  lemma {:induction false} RunDigitsEach(data: string, pos: nat)
    requires pos <= |data|
    ensures forall i :: pos <= i < DigitRunEnd(data, pos) ==> IsDigit(data[i])
    decreases |data| - pos
  {
    if pos < |data| && IsDigit(data[pos]) {
      RunDigitsEach(data, pos + 1);
    }
  }

  /** A run holds only digits. */
  lemma RunDigits(data: string, pos: nat)
    requires pos <= |data|
    ensures Strconv.AllDigits(data[pos..DigitRunEnd(data, pos)])
  {
    RunDigitsEach(data, pos);
    Strconv.AllDigitsEach(data[pos..DigitRunEnd(data, pos)]);
  }

  /** The value of the digit run that starts at `pos`. */
  function RunValue(data: string, pos: nat): nat
    requires pos <= |data|
  {
    RunDigits(data, pos);
    Strconv.DecimalValue(data[pos..DigitRunEnd(data, pos)])
  }

  /** `FindNumberInBytes(data, pos)`: the value of the maximal digit run that
      starts at `pos`, read left to right and never before `pos`, or
      `(0, false)` when there is no digit at `pos`. */
  method FindNumberInBytes(data: string, pos: nat) returns (n: int, ok: bool)
    ensures ok <==> pos < |data| && IsDigit(data[pos])
    ensures ok ==> n == RunValue(data, pos)
    ensures !ok ==> n == 0
  {
    var num: string := [];
    var i := pos;
    while i < |data| && IsDigit(data[i])
      invariant pos <= i
      invariant i > pos ==> i <= |data|
      invariant |num| == i - pos
      invariant forall k :: 0 <= k < |num| ==> num[k] == data[pos + k] && IsDigit(num[k])
      invariant pos <= |data| ==> DigitRunEnd(data, pos) == DigitRunEnd(data, i)
      decreases |data| - i
    {
      num := num + [data[i]];
      i := i + 1;
    }
    Strconv.AllDigitsEach(num);
    var parsed := Strconv.Atoi(num);
    if parsed.None? {
      return 0, false;
    }
    assert 0 < |num| && Strconv.AllDigits(num);
    assert num == data[pos..DigitRunEnd(data, pos)];
    RunDigits(data, pos);
    n, ok := parsed.value, true;
  }

  /** A maximal digit run of `s` starts at `i`: a digit with no digit before
      it. */
  predicate RunStart(s: string, i: int) {
    0 <= i < |s| && IsDigit(s[i]) && (i == 0 || !IsDigit(s[i - 1]))
  }

  /** Every digit run of `s` starts with a nonzero digit (so a run is never
      just `0`). */
  predicate NoLeadingZeros(s: string) {
    forall i :: 0 <= i < |s| && RunStart(s, i) ==> s[i] != '0'
  }

  /** Without leading zeros, the digit count of a run's value is the run's
      width. */
  lemma RunWidth(s: string, i: nat)
    requires RunStart(s, i) && NoLeadingZeros(s)
    ensures RunValue(s, i) >= 1
    ensures LengthOfInt(RunValue(s, i)) == DigitRunEnd(s, i) - i
  {
    var run := s[i..DigitRunEnd(s, i)];
    assert run[0] == s[i];
    RunDigits(s, i);
    LengthOfDigitRun(run);
  }

  /** No run starts inside a run or right after it. */
  lemma RunInterior(s: string, i: nat)
    requires RunStart(s, i)
    ensures forall j :: i < j <= DigitRunEnd(s, i) ==> !RunStart(s, j)
  {
    RunDigitsEach(s, i);
  }

  /** `StringSliceToIntSlice` (utils/conversions.go): every string through
      `Atoi`, in order; one that is not an integer is fatal. */
  function StringSliceToIntSlice(ss: seq<string>): (r: Option<seq<int>>)
    ensures r.Some? <==> forall k :: 0 <= k < |ss| ==> Strconv.Atoi(ss[k]).Some?
    ensures r.Some? ==> |r.value| == |ss| && forall k :: 0 <= k < |ss| ==> Strconv.Atoi(ss[k]) == Some(r.value[k])
  {
    if |ss| == 0 then Some([])
    else
      match Strconv.Atoi(ss[0])
      case None => None
      case Some(head) =>
        match StringSliceToIntSlice(ss[1..])
        case None => None
        case Some(tail) => Some([head] + tail)
  }

  /** Strings that each convert to the matching integer convert to the list
      of those integers. */
  lemma StringSliceToIntSliceOf(ss: seq<string>, ns: seq<int>)
    requires |ns| == |ss| && forall k :: 0 <= k < |ss| ==> Strconv.Atoi(ss[k]) == Some(ns[k])
    ensures StringSliceToIntSlice(ss) == Some(ns)
  {
    var r := StringSliceToIntSlice(ss);
    assert r.Some? && forall k :: 0 <= k < |ns| ==> r.value[k] == ns[k];
    assert r.value == ns;
  }

  /** The decimal renderings of a list of integers. */
  function FormatInts(ns: seq<int>): (ss: seq<string>)
    ensures |ss| == |ns| && forall k :: 0 <= k < |ns| ==> ss[k] == Strconv.FormatInt(ns[k])
  {
    if |ns| == 0 then [] else [Strconv.FormatInt(ns[0])] + FormatInts(ns[1..])
  }

  /** Converting the renderings of integers gives back the integers. */
  lemma StringSliceToIntSliceFormat(ns: seq<int>)
    ensures StringSliceToIntSlice(FormatInts(ns)) == Some(ns)
  {
    var ss := FormatInts(ns);
    forall k | 0 <= k < |ss| ensures Strconv.Atoi(ss[k]) == Some(ns[k]) {
      Strconv.AtoiFormatInt(ns[k]);
    }
    StringSliceToIntSliceOf(ss, ns);
  }
}
