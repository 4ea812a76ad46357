/** solutions/day9.go: each record of the OASIS report is extrapolated by
    building its difference list and extrapolating that, until the values
    after the first are all zero. */
module Oasis {
  import opened Wrappers
  import Strconv
  import GoStrings
  import Utils
  import Collections

  /** The differences of neighbouring values: one element fewer than `r`. */
  function Differences(r: seq<int>): (d: seq<int>)
    requires |r| > 0
    ensures |d| == |r| - 1
  {
    seq(|r| - 1, i requires 0 <= i < |r| - 1 => r[i + 1] - r[i])
  }

  /** The flag of `predictValue`: every value after the first is zero (the
      flag looks at the values, not at their differences). */
  predicate ZeroAfterFirst(r: seq<int>) {
    forall i :: 1 <= i < |r| ==> r[i] == 0
  }

  /** The extrapolated next value of a record. */
  function Prediction(r: seq<int>): int
    requires |r| > 0
    decreases |r|
  {
    if ZeroAfterFirst(r) then 0 else r[|r| - 1] + Prediction(Differences(r))
  }

  /** A list holding the neighbouring differences of `r` is its difference
      list. */
  lemma DifferencesOf(r: seq<int>, diffs: seq<int>)
    requires |r| > 0 && |diffs| == |r| - 1
    requires forall k :: 0 <= k < |diffs| ==> diffs[k] == r[k + 1] - r[k]
    ensures diffs == Differences(r)
  {
    var d := Differences(r);
    assert forall k :: 0 <= k < |diffs| ==> diffs[k] == d[k];
  }

  /** `predictValue`: one pass builds the difference list while tracking the
      zero flag and the last value; then the record either predicts 0 or its
      last value plus the prediction of the differences. */
  method PredictValue(r: seq<int>) returns (p: int)
    requires |r| > 0
    ensures p == Prediction(r)
    decreases |r|
  {
    var diffs: seq<int> := [];
    var curr := r[0];
    var zero := true;
    for i := 1 to |r|
      invariant |diffs| == i - 1
      invariant forall k :: 0 <= k < i - 1 ==> diffs[k] == r[k + 1] - r[k]
      invariant curr == r[i - 1]
      invariant zero <==> forall k :: 1 <= k < i ==> r[k] == 0
    {
      var next := r[i];
      diffs := diffs + [next - curr];
      curr := next;
      if curr != 0 {
        zero := false;
      }
    }
    if zero {
      assert ZeroAfterFirst(r);
      return 0;
    }
    assert !ZeroAfterFirst(r);
    DifferencesOf(r, diffs);
    assert Prediction(r) == r[|r| - 1] + Prediction(diffs);
    var rest := PredictValue(diffs);
    p := curr + rest;
  }

  /** A record of one value predicts 0, whatever that value is. */
  lemma SingleValuePredictsZero(v: int)
    ensures Prediction([v]) == 0
  {
  }

  /** When the flag is down, the predicted value extends the record so that
      its difference list is extended by the prediction of the differences:
      the new value keeps the difference table consistent. */
  lemma PredictionExtendsTable(r: seq<int>)
    requires |r| > 0 && !ZeroAfterFirst(r)
    ensures Differences(r + [Prediction(r)]) == Differences(r) + [Prediction(Differences(r))]
  {
    DifferencesAppend(r, Prediction(r));
  }

  /** Appending a value appends its difference to the last value. */
  lemma DifferencesAppend(r: seq<int>, x: int)
    requires |r| > 0
    ensures Differences(r + [x]) == Differences(r) + [x - r[|r| - 1]]
  {
    var e := r + [x];
    assert e[..|e| - 1] == r;
  }

  /** The prediction of a record is the sum of the last values down the
      difference table, stopping at the first row whose flag is up. */
  function LastValues(r: seq<int>): (ls: seq<int>)
    requires |r| > 0
    ensures |ls| <= |r|
    decreases |r|
  {
    if ZeroAfterFirst(r) then [] else [r[|r| - 1]] + LastValues(Differences(r))
  }

  lemma {:induction false} PredictionSumsLastValues(r: seq<int>)
    requires |r| > 0
    ensures Prediction(r) == Collections.Sum(LastValues(r))
    decreases |r|
  {
    if !ZeroAfterFirst(r) {
      PredictionSumsLastValues(Differences(r));
      var ls := LastValues(r);
      assert ls[1..] == LastValues(Differences(r));
      Collections.SumFront(ls);
    }
  }

  /** An arithmetic progression a, a+d, a+2d, ... of at least three values
      with a nonzero step is predicted exactly one step further. */
  lemma ProgressionPrediction(a: int, d: int, n: nat)
    requires n >= 3 && d != 0
    ensures Prediction(Progression(a, d, n)) == a + n * d
  {
    var r := Progression(a, d, n);
    var df := Differences(r);
    ProgressionSteps(a, d, n);
    PredictionConstant(df, d);
    assert r[1] == a + d && r[2] == a + 2 * d;
    assert !ZeroAfterFirst(r);
    assert Prediction(r) == r[n - 1] + Prediction(df);
    MulSucc(n - 1, d);
  }

  /** Every difference of a progression is its step. */
  lemma ProgressionSteps(a: int, d: int, n: nat)
    requires n > 0
    ensures forall i :: 0 <= i < n - 1 ==> Differences(Progression(a, d, n))[i] == d
  {
    var r := Progression(a, d, n);
    forall i | 0 <= i < n - 1
      ensures Differences(r)[i] == d
    {
      assert r[i + 1] == a + (i + 1) * d && r[i] == a + i * d;
      MulSucc(i, d);
    }
  }

  lemma MulSucc(i: int, d: int)
    ensures (i + 1) * d == i * d + d
  {
  }

  /** Two values, a nonzero one and then zero, predict zero rather than the
      next value of their progression. */
  lemma ShortProgressionPrediction(d: int)
    requires d != 0
    ensures Prediction(Progression(-d, d, 2)) == 0
  {
    assert Progression(-d, d, 2) == [-d, 0];
  }

  /** The values a, a+d, ..., a+(n-1)d. */
  function Progression(a: int, d: int, n: nat): (r: seq<int>)
    ensures |r| == n && forall i :: 0 <= i < n ==> r[i] == a + i * d
  {
    if n == 0 then [] else Progression(a, d, n - 1) + [a + (n - 1) * d]
  }

  /** A record whose values all equal d predicts d. */
  lemma PredictionConstant(r: seq<int>, d: int)
    requires |r| > 0 && forall i :: 0 <= i < |r| ==> r[i] == d
    ensures Prediction(r) == (if |r| == 1 || d == 0 then 0 else d)
  {
    if |r| > 1 && d != 0 {
      var df := Differences(r);
      assert r[1] == d && !ZeroAfterFirst(r);
      assert forall i :: 0 <= i < |df| ==> df[i] == 0;
      assert ZeroAfterFirst(df);
      assert Prediction(r) == r[|r| - 1] + Prediction(df);
    }
  }

  /** A nonzero first value followed by zeros predicts 0, although the next
      value that keeps the difference table consistent would be the first
      one again: 5, 0, 0 predicts 0. */
  lemma ZeroFlagLooksAtValues()
    ensures Prediction([5, 0, 0]) == 0
  {
  }

  /** `Parse` on one line: its whitespace-separated fields through `Atoi`, in
      order; a field that is not an integer is fatal. */
  function ParseRecord(line: string): Option<seq<int>> {
    Utils.StringSliceToIntSlice(GoStrings.Fields(line))
  }

  /** The parsed record of each line. */
  function LineRecords(lines: seq<string>): (rs: seq<Option<seq<int>>>)
    ensures |rs| == |lines| && forall i :: 0 <= i < |lines| ==> rs[i] == ParseRecord(lines[i])
  {
    seq(|lines|, i requires 0 <= i < |lines| => ParseRecord(lines[i]))
  }

  /** The records of all the lines, or nothing when some line does not
      parse. */
  function ParseReport(lines: seq<string>): Option<seq<seq<int>>> {
    AllSome(LineRecords(lines))
  }

  /** The report parses exactly when every line does, and then holds the
      record of each line in order. */
  lemma ParseReportLines(lines: seq<string>)
    ensures ParseReport(lines).Some? <==> forall i :: 0 <= i < |lines| ==> ParseRecord(lines[i]).Some?
    ensures ParseReport(lines).Some? ==>
      |ParseReport(lines).value| == |lines| &&
      forall i :: 0 <= i < |lines| ==> ParseReport(lines).value[i] == ParseRecord(lines[i]).value
  {
    AllSomeValues(LineRecords(lines));
  }

  /** `Parse`: a record per line, or an error as soon as one field of some
      line is not an integer. */
  method Parse(lines: seq<string>) returns (records: seq<seq<int>>, ok: bool)
    ensures ok <==> ParseReport(lines).Some?
    ensures ok ==> records == ParseReport(lines).value
  {
    ghost var rs := LineRecords(lines);
    records := [];
    for l := 0 to |lines|
      invariant AllSome(rs[..l]) == Some(records)
    {
      var fields := GoStrings.Fields(lines[l]);
      var record: seq<int> := [];
      for f := 0 to |fields|
        invariant |record| == f
        invariant forall k :: 0 <= k < f ==> Strconv.Atoi(fields[k]) == Some(record[k])
      {
        var val := Strconv.Atoi(fields[f]);
        if val.None? {
          assert rs[l].None?;
          AllSomeValues(rs);
          return records, false;
        }
        record := record + [val.value];
      }
      Utils.StringSliceToIntSliceOf(fields, record);
      AllSomeStep(rs, l, records, record);
      records := records + [record];
    }
    assert rs[..|lines|] == rs;
    ok := true;
  }

  /** The sum of the predictions of the records. */
  function TotalPrediction(records: seq<seq<int>>): int
    requires forall i :: 0 <= i < |records| ==> |records[i]| > 0
  {
    if |records| == 0 then 0 else TotalPrediction(records[..|records| - 1]) + Prediction(records[|records| - 1])
  }

  /** `Day9`: sums `Predict` over the records of the report. */
  method Day9(records: seq<seq<int>>) returns (sum: int)
    requires forall i :: 0 <= i < |records| ==> |records[i]| > 0
    ensures sum == TotalPrediction(records)
  {
    sum := 0;
    for i := 0 to |records|
      invariant sum == TotalPrediction(records[..i])
    {
      var prediction := PredictValue(records[i]);
      assert records[..i + 1][..i] == records[..i];
      sum := sum + prediction;
    }
    assert records[..|records|] == records;
  }
}
