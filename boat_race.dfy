/** solutions/day6.go: a toy boat is charged for i milliseconds of a race of
    `Time` milliseconds and then runs at a speed proportional to the charge;
    the solver counts, per race, the hold times that beat the record
    distance, and multiplies the counts. */
module BoatRace {
  import opened Wrappers
  import GoStrings
  import Utils

  datatype RegattaBoat = RegattaBoat(baseVelocity: int)

  datatype RegattaRecord = RegattaRecord(time: int, distance: int)

  /** `velocity`: the speed after charging for `chargeTime`. */
  function Velocity(b: RegattaBoat, chargeTime: int): int {
    b.baseVelocity * chargeTime
  }

  /** The distance covered when the button is held for `i` and the boat
      then runs for the rest of the race. */
  function Travel(b: RegattaBoat, record: RegattaRecord, i: int): int {
    Velocity(b, record.time - i) * i
  }

  /** Holding for `i` beats the record. */
  predicate Beats(b: RegattaBoat, record: RegattaRecord, i: int) {
    Travel(b, record, i) > record.distance
  }

  /** The smallest winning hold time in [i, Time], or 0 when there is none:
      what the first loop of `AttemptRace` leaves in `left`. */
  function FirstWinFrom(b: RegattaBoat, record: RegattaRecord, i: int): (w: int)
    requires i >= 1
    ensures w == 0 || (i <= w <= record.time && Beats(b, record, w))
    ensures forall j :: i <= j <= record.time && (w == 0 || j < w) ==> !Beats(b, record, j)
    decreases record.time - i
  {
    if i > record.time then 0
    else if Beats(b, record, i) then i
    else FirstWinFrom(b, record, i + 1)
  }

  /** The largest winning hold time in [0, n), or 0 when there is none:
      what the second loop of `AttemptRace` leaves in `right`. */
  function LastWinBelow(b: RegattaBoat, record: RegattaRecord, n: nat): (w: int)
    ensures 0 <= w && (n == 0 || w < n)
    ensures w == 0 || Beats(b, record, w)
    ensures forall j :: w < j < n ==> !Beats(b, record, j)
  {
    if n == 0 then 0
    else if Beats(b, record, n - 1) then n - 1
    else LastWinBelow(b, record, n - 1)
  }

  /** The value `AttemptRace` returns. */
  function RaceResult(b: RegattaBoat, record: RegattaRecord): int
    requires record.time >= 0
  {
    LastWinBelow(b, record, record.time) - FirstWinFrom(b, record, 1) + 1
  }

  /** `AttemptRace`: the first loop walks the hold times down from `Time`
      to 1 and keeps the last (so smallest) winner; the second walks them up
      from 0 to `Time - 1` and keeps the last (so largest) winner. A
      negative `Time` would make the first loop run past zero. */
  method AttemptRace(b: RegattaBoat, record: RegattaRecord) returns (n: int)
    requires record.time >= 0
    ensures n == RaceResult(b, record)
  {
    var right, left := 0, 0;
    var i := record.time;
    while i != 0
      invariant 0 <= i <= record.time
      invariant left == FirstWinFrom(b, record, i + 1)
    {
      var distance := Velocity(b, record.time - i) * i;
      if distance > record.distance {
        left := i;
      }
      i := i - 1;
    }
    i := 0;
    while i < record.time
      invariant 0 <= i <= record.time
      invariant right == LastWinBelow(b, record, i)
    {
      var distance := Velocity(b, record.time - i) * i;
      if distance > record.distance {
        right := i;
      }
      i := i + 1;
    }
    n := right - left + 1;
  }

  /** When no hold time wins, the result is 1, not 0. */
  lemma NoWinGivesOne(b: RegattaBoat, record: RegattaRecord)
    requires record.time >= 0
    requires forall i :: 0 <= i <= record.time ==> !Beats(b, record, i)
    ensures RaceResult(b, record) == 1
  {
    var w := FirstWinFrom(b, record, 1);
    assert w == 0;
    var v := LastWinBelow(b, record, record.time);
    assert v == 0;
  }

  /** i (T - i) is concave: between two hold times it is at least the
      smaller of their values. */
  lemma Concave(t: int, i: int, j: int, k: int)
    requires i <= j <= k
    ensures j * (t - j) >= i * (t - i) || j * (t - j) >= k * (t - k)
  {
    assert j * (t - j) - i * (t - i) == (j - i) * (t - i - j);
    assert j * (t - j) - k * (t - k) == (k - j) * (j + k - t);
    if t - i - j < 0 {
      assert j + k - t > 0;
    }
  }

  /** With a non-negative base velocity, the winning hold times form one
      block: a hold time between two winners wins. */
  lemma WinnersContiguous(b: RegattaBoat, record: RegattaRecord, i: int, j: int, k: int)
    requires b.baseVelocity >= 0
    requires i <= j <= k && Beats(b, record, i) && Beats(b, record, k)
    ensures Beats(b, record, j)
  {
    var v, t := b.baseVelocity, record.time;
    Concave(t, i, j, k);
    TravelProduct(b, record, i);
    TravelProduct(b, record, j);
    TravelProduct(b, record, k);
    if j * (t - j) >= i * (t - i) {
      MultiplyMonotone(v, i * (t - i), j * (t - j));
    } else {
      MultiplyMonotone(v, k * (t - k), j * (t - j));
    }
  }

  lemma TravelProduct(b: RegattaBoat, record: RegattaRecord, i: int)
    ensures Travel(b, record, i) == b.baseVelocity * (i * (record.time - i))
  {
    var v, c := b.baseVelocity, record.time - i;
    assert (v * c) * i == v * (c * i);
    assert c * i == i * c;
  }

  lemma MultiplyMonotone(v: int, x: int, y: int)
    requires v >= 0 && x <= y
    ensures v * x <= v * y
  {
    assert v * y - v * x == v * (y - x);
  }

  /** The number of winning hold times in [0, n). */
  function WinCount(b: RegattaBoat, record: RegattaRecord, n: nat): nat {
    if n == 0 then 0 else WinCount(b, record, n - 1) + (if Beats(b, record, n - 1) then 1 else 0)
  }

  /** Counting over a block [l, r] of winners with no winner outside it. */
  lemma {:induction false} WinCountBlock(b: RegattaBoat, record: RegattaRecord, l: nat, r: nat, n: nat)
    requires l <= r
    requires forall j :: 0 <= j < l ==> !Beats(b, record, j)
    requires forall j :: l <= j <= r ==> Beats(b, record, j)
    requires forall j :: r < j < n ==> !Beats(b, record, j)
    ensures WinCount(b, record, n) == if n <= l then 0 else if n <= r + 1 then n - l else r - l + 1
  {
    if n > 0 {
      WinCountBlock(b, record, l, r, n - 1);
    }
  }

  /** With linear charging and a non-negative record the result is the
      number of winning hold times whenever at least one wins. */
  lemma RaceResultCounts(b: RegattaBoat, record: RegattaRecord, w: int)
    requires record.time >= 0 && record.distance >= 0 && b.baseVelocity >= 0
    requires 0 <= w <= record.time && Beats(b, record, w)
    ensures RaceResult(b, record) == WinCount(b, record, record.time + 1)
  {
    var t := record.time;
    assert !Beats(b, record, 0);
    assert !Beats(b, record, t) by {
      assert Velocity(b, 0) == 0;
    }
    var l := FirstWinFrom(b, record, 1);
    var r := LastWinBelow(b, record, t);
    assert 1 <= l <= w <= r < t;
    forall j | l <= j <= r
      ensures Beats(b, record, j)
    {
      WinnersContiguous(b, record, l, j, r);
    }
    WinCountBlock(b, record, l, r, t + 1);
  }

  /** `prepareLine` on one line: the fields after the first colon; a line
      without a colon is fatal. */
  function PrepareLine(raw: string): Option<seq<string>> {
    var line := GoStrings.Split(raw, ":");
    if |line| < 2 then None else Some(GoStrings.Fields(line[1]))
  }

  /** The integers of one line of the table, or an error. */
  function ParseLine(raw: string): Option<seq<int>> {
    var fields :- PrepareLine(raw);
    Utils.StringSliceToIntSlice(fields)
  }

  /** `Parse`: the i-th time and the i-th distance make the i-th record.
      Fewer distances than times index past the end, which is fatal; extra
      distances are ignored. */
  method Parse(timeLine: string, distLine: string) returns (records: seq<RegattaRecord>, ok: bool)
    ensures ok <==> ParseLine(timeLine).Some? && ParseLine(distLine).Some? &&
                    |ParseLine(distLine).value| >= |ParseLine(timeLine).value|
    ensures ok ==> Paired(records, ParseLine(timeLine).value, ParseLine(distLine).value)
  {
    var times := ParseLine(timeLine);
    var dists := ParseLine(distLine);
    if times.None? || dists.None? {
      return [], false;
    }
    records, ok := Pair(times.value, dists.value);
  }

  /** `records` pairs each time with the distance at the same index. */
  predicate Paired(records: seq<RegattaRecord>, times: seq<int>, dists: seq<int>) {
    |records| == |times| <= |dists| &&
    forall i :: 0 <= i < |records| ==> records[i] == RegattaRecord(times[i], dists[i])
  }

  /** The loop of `Parse`. */
  method Pair(times: seq<int>, dists: seq<int>) returns (records: seq<RegattaRecord>, ok: bool)
    ensures ok <==> |dists| >= |times|
    ensures ok ==> Paired(records, times, dists)
  {
    records := [];
    for i := 0 to |times|
      invariant |records| == i
      invariant i > 0 ==> i <= |dists|
      invariant forall k :: 0 <= k < i ==> records[k] == RegattaRecord(times[k], dists[k])
    {
      if i >= |dists| {
        return records, false;
      }
      records := records + [RegattaRecord(times[i], dists[i])];
    }
    ok := true;
  }

  /** The product of the results of the races, starting from 1. */
  function ResultProduct(b: RegattaBoat, records: seq<RegattaRecord>): int
    requires forall i :: 0 <= i < |records| ==> records[i].time >= 0
  {
    if |records| == 0 then 1
    else ResultProduct(b, records[..|records| - 1]) * RaceResult(b, records[|records| - 1])
  }

  /** The product is zero exactly when some race has result zero. */
  lemma {:induction false} ResultProductZero(b: RegattaBoat, records: seq<RegattaRecord>)
    requires forall i :: 0 <= i < |records| ==> records[i].time >= 0
    ensures ResultProduct(b, records) == 0 <==> exists i :: 0 <= i < |records| && RaceResult(b, records[i]) == 0
  {
    if |records| > 0 {
      var n := |records| - 1;
      var front := records[..n];
      ResultProductZero(b, front);
      assert forall i :: 0 <= i < |front| ==> front[i] == records[i];
      var p, r := ResultProduct(b, front), RaceResult(b, records[n]);
      assert ResultProduct(b, records) == p * r;
      ZeroProduct(p, r);
    }
  }

  /** A product is zero exactly when a factor is. */
  lemma ZeroProduct(x: int, y: int)
    ensures x * y == 0 <==> x == 0 || y == 0
  {
  }

  /** `Day6`: multiplies the results of the races with a boat of base
      velocity 1. */
  method Day6(records: seq<RegattaRecord>) returns (accumulated: int)
    requires forall i :: 0 <= i < |records| ==> records[i].time >= 0
    ensures accumulated == ResultProduct(RegattaBoat(1), records)
  {
    accumulated := 1;
    var boat := RegattaBoat(1);
    for i := 0 to |records|
      invariant accumulated == ResultProduct(boat, records[..i])
    {
      var n := AttemptRace(boat, records[i]);
      assert records[..i + 1][..i] == records[..i];
      accumulated := accumulated * n;
    }
    assert records[..|records|] == records;
  }
}
