/** 2023/day3.go: Gear Ratios, first version. A three-row window slides over
    the lines of the engine schematic; a number in the middle row is an
    engine part when a symbol lies next to it, and the solver sums the
    engine parts. The scanner is the sequence of lines it yields. */
module EngineParts {
  import Utils
  import Collections

  /** `isSymbol`: neither a digit nor `.`. */
  predicate IsSymbol(c: char) {
    !Utils.IsDigit(c) && c != '.'
  }

  /** Line j of the input, or the empty row outside the input: what the
      window holds before the first and after the last line. */
  function Row(input: seq<string>, j: int): string {
    if 0 <= j < |input| then input[j] else []
  }

  /** What the solver assumes of its input: every non-empty line is as wide
      as the first (the rows above and below are indexed at the current
      row's columns), and no number has a leading zero (the scan skips a
      number by its digit count). */
  predicate Schematic(input: seq<string>) {
    (forall j :: 0 <= j < |input| ==> |input[j]| == 0 || |input[j]| == |input[0]|) &&
    (forall j :: 0 <= j < |input| ==> Utils.NoLeadingZeros(input[j]))
  }

  /** The engine parts of non-empty line r, in the window of the lines
      round it. */
  ghost function RowParts(input: seq<string>, r: nat): seq<int>
    requires Schematic(input) && r < |input| && |input[r]| > 0
  {
    RowAligned(input, r);
    PartsFrom(Row(input, r - 1), input[r], Row(input, r + 1), 0)
  }

  /** The engine parts of the lines from line r on, row by row, up to the
      first empty line. */
  ghost function NumbersFrom(input: seq<string>, r: nat): seq<int>
    requires Schematic(input)
    decreases |input| - r
  {
    if r >= |input| || |input[r]| == 0 then [] else RowParts(input, r) + NumbersFrom(input, r + 1)
  }

  /** A non-empty line and the lines round it form an aligned window. */
  lemma RowAligned(input: seq<string>, r: nat)
    requires Schematic(input) && r < |input| && |input[r]| > 0
    ensures Aligned(Row(input, r - 1), input[r], Row(input, r + 1))
    ensures Utils.NoLeadingZeros(input[r])
  {
  }

  /** The loop of `FindAllNumbers` from line r, with the parts found so far
      in `acc`. */
  ghost function ScanRows(input: seq<string>, r: nat, acc: seq<int>): seq<int>
    requires Schematic(input)
    decreases |input| - r
  {
    if r >= |input| || |input[r]| == 0 then acc else ScanRows(input, r + 1, acc + RowParts(input, r))
  }

  /** The loop appends the parts of the rows from line r to what it has
      found. */
  lemma {:induction false} ScanRowsNumbers(input: seq<string>, r: nat, acc: seq<int>)
    requires Schematic(input)
    ensures ScanRows(input, r, acc) == acc + NumbersFrom(input, r)
    decreases |input| - r
  {
    if r < |input| && |input[r]| > 0 {
      var here := RowParts(input, r);
      ScanRowsNumbers(input, r + 1, acc + here);
      Collections.AppendAssoc(acc, here, NumbersFrom(input, r + 1));
    }
  }

  /** The rows above and below are absent or as wide as the middle row, so
      they can be indexed at its columns. */
  predicate Aligned(prev: string, curr: string, next: string) {
    (|prev| == 0 || |prev| == |curr|) && (|next| == 0 || |next| == |curr|)
  }

  /** Column p is checked (`filterPoints`: 0 < p < |curr|) and holds a
      symbol in a row of the window that is present. */
  predicate SymbolAt(prev: string, curr: string, next: string, p: int)
    requires Aligned(prev, curr, next)
  {
    0 < p < |curr| &&
    ((|prev| > 0 && IsSymbol(prev[p])) || (|next| > 0 && IsSymbol(next[p])) || IsSymbol(curr[p]))
  }

  /** A number in columns [start, end) of the middle row has a symbol in a
      checked column from start - 1 to end. */
  predicate SymbolNear(prev: string, curr: string, next: string, start: int, end: int)
    requires Aligned(prev, curr, next)
  {
    exists p :: start - 1 <= p <= end && SymbolAt(prev, curr, next, p)
  }

  /** The engine parts of the middle row from column i on: the value of
      each maximal digit run starting at or after i that has a symbol near
      it, left to right. */
  ghost function PartsFrom(prev: string, curr: string, next: string, i: nat): seq<int>
    requires Aligned(prev, curr, next)
    decreases |curr| - i
  {
    if i >= |curr| then [] else PartAt(prev, curr, next, i) + PartsFrom(prev, curr, next, i + 1)
  }

  /** The engine part whose run starts at column i, if there is one. */
  ghost function PartAt(prev: string, curr: string, next: string, i: nat): seq<int>
    requires Aligned(prev, curr, next) && i < |curr|
  {
    if Utils.RunStart(curr, i) && SymbolNear(prev, curr, next, i, Utils.DigitRunEnd(curr, i))
    then [Utils.RunValue(curr, i) as int] else []
  }

  /** The scan of `findNumbers` from column i, with the parts found so far
      in `acc`. */
  ghost function Scan(prev: string, curr: string, next: string, i: nat, acc: seq<int>): seq<int>
    requires Aligned(prev, curr, next)
    decreases |curr| - i
  {
    if i >= |curr| then acc else Scan(prev, curr, next, i + 1, acc + PartAt(prev, curr, next, i))
  }

  /** The scan appends the parts from column i to what it has found. */
  lemma {:induction false} ScanParts(prev: string, curr: string, next: string, i: nat, acc: seq<int>)
    requires Aligned(prev, curr, next)
    ensures Scan(prev, curr, next, i, acc) == acc + PartsFrom(prev, curr, next, i)
    decreases |curr| - i
  {
    if i < |curr| {
      var here := PartAt(prev, curr, next, i);
      ScanParts(prev, curr, next, i + 1, acc + here);
      Collections.AppendAssoc(acc, here, PartsFrom(prev, curr, next, i + 1));
    }
  }

  /** Columns where no run starts add nothing. */
  lemma {:induction false} ScanSkip(prev: string, curr: string, next: string, a: nat, b: nat, acc: seq<int>)
    requires Aligned(prev, curr, next)
    requires a <= b && forall j :: a <= j < b ==> !Utils.RunStart(curr, j)
    ensures Scan(prev, curr, next, a, acc) == Scan(prev, curr, next, b, acc)
    decreases b - a
  {
    if a < b {
      ScanNoRun(prev, curr, next, a, acc);
      ScanSkip(prev, curr, next, a + 1, b, acc);
    }
  }

  /** The loop of `findNumbers` where no run starts: nothing to add. */
  lemma ScanNoRun(prev: string, curr: string, next: string, i: nat, acc: seq<int>)
    requires Aligned(prev, curr, next) && !Utils.RunStart(curr, i)
    ensures Scan(prev, curr, next, i + 1, acc) == Scan(prev, curr, next, i, acc)
  {
    if i < |curr| {
      assert acc + PartAt(prev, curr, next, i) == acc;
    }
  }

  /** At the start of a run the part found is the run's value when a
      symbol is near it, and nothing otherwise. */
  lemma PartAtRun(prev: string, curr: string, next: string, i: nat, number: int, part: bool)
    requires Aligned(prev, curr, next) && Utils.RunStart(curr, i) && Utils.NoLeadingZeros(curr)
    requires number == Utils.RunValue(curr, i) && number >= 1
    requires part <==> SymbolNear(prev, curr, next, i, i + Utils.LengthOfInt(number))
    ensures i + Utils.LengthOfInt(number) == Utils.DigitRunEnd(curr, i)
    ensures PartAt(prev, curr, next, i) == if part then [number] else []
  {
    Utils.RunWidth(curr, i);
  }

  /** The loop of `findNumbers` at a run: this run's value is added when
      it is a part, and the scan moves one column past the run's end. */
  lemma ScanStep(prev: string, curr: string, next: string, acc: seq<int>, i: nat, number: int, part: bool, found: seq<int>)
    requires Aligned(prev, curr, next) && Utils.RunStart(curr, i) && Utils.NoLeadingZeros(curr)
    requires number == Utils.RunValue(curr, i) && number >= 1
    requires part <==> SymbolNear(prev, curr, next, i, i + Utils.LengthOfInt(number))
    requires found == if part then acc + [number] else acc
    ensures Scan(prev, curr, next, i + Utils.LengthOfInt(number) + 1, found) == Scan(prev, curr, next, i, acc)
  {
    PartAtRun(prev, curr, next, i, number, part);
    var e := i + Utils.LengthOfInt(number);
    assert found == acc + PartAt(prev, curr, next, i);
    Utils.RunInterior(curr, i);
    ScanSkip(prev, curr, next, i + 1, e + 1, found);
  }

  /** One pass of the loop of `findNumbers` at column i, where no run
      continues from the left: it resumes past the end of the columns no
      later than the end of the line plus one, and not inside a run. */
  lemma FindStep(prev: string, curr: string, next: string, i: nat, number: int, ok: bool, part: bool,
                 before: seq<int>, numbers: seq<int>, i': nat)
    requires Aligned(prev, curr, next) && Utils.NoLeadingZeros(curr) && i < |curr|
    requires i == 0 || !Utils.IsDigit(curr[i - 1])
    requires ok <==> Utils.IsDigit(curr[i])
    requires ok ==> number == Utils.RunValue(curr, i)
    requires ok ==> Utils.RunValue(curr, i) >= 1 &&
                    (part <==> SymbolNear(prev, curr, next, i, i + Utils.LengthOfInt(number)))
    requires numbers == if ok && part then before + [number] else before
    requires i' == if ok then i + Utils.LengthOfInt(number) + 1 else i + 1
    ensures i' <= |curr| + 1 && (i' > |curr| || !Utils.IsDigit(curr[i' - 1]))
    ensures Scan(prev, curr, next, i', numbers) == Scan(prev, curr, next, i, before)
  {
    if ok {
      Utils.RunWidth(curr, i);
      assert i' - 1 == Utils.DigitRunEnd(curr, i);
      ScanStep(prev, curr, next, before, i, number, part, numbers);
    } else {
      ScanNoRun(prev, curr, next, i, numbers);
    }
  }

  /** `isEnginePart`'s three checks over the checked columns `points` find
      a symbol exactly when one is near the number. */
  lemma NearInPoints(prev: string, curr: string, next: string, start: int, end: int, points: seq<int>)
    requires Aligned(prev, curr, next)
    requires forall k :: 0 <= k < |points| ==> start - 1 <= points[k] <= end && 0 < points[k] < |curr|
    requires forall p :: start - 1 <= p <= end && 0 < p < |curr| ==> p in points
    ensures SymbolNear(prev, curr, next, start, end) <==>
            (|prev| > 0 && exists k :: 0 <= k < |points| && IsSymbol(prev[points[k]])) ||
            (|next| > 0 && exists k :: 0 <= k < |points| && IsSymbol(next[points[k]])) ||
            (exists k :: 0 <= k < |points| && IsSymbol(curr[points[k]]))
  {
    if SymbolNear(prev, curr, next, start, end) {
      var p :| start - 1 <= p <= end && SymbolAt(prev, curr, next, p);
      assert p in points;
      var k :| 0 <= k < |points| && points[k] == p;
    }
    if |prev| > 0 && exists k :: 0 <= k < |points| && IsSymbol(prev[points[k]]) {
      var k :| 0 <= k < |points| && IsSymbol(prev[points[k]]);
      assert SymbolAt(prev, curr, next, points[k]);
    }
    if |next| > 0 && exists k :: 0 <= k < |points| && IsSymbol(next[points[k]]) {
      var k :| 0 <= k < |points| && IsSymbol(next[points[k]]);
      assert SymbolAt(prev, curr, next, points[k]);
    }
    if exists k :: 0 <= k < |points| && IsSymbol(curr[points[k]]) {
      var k :| 0 <= k < |points| && IsSymbol(curr[points[k]]);
      assert SymbolAt(prev, curr, next, points[k]);
    }
  }

  /** `filterPoints`' filter: the points p with 0 < p < n, in order. */
  function Clip(points: seq<int>, n: int): (r: seq<int>)
    ensures |r| <= |points|
    ensures forall p :: p in r <==> p in points && 0 < p < n
    ensures forall k :: 0 <= k < |r| ==> 0 < r[k] < n && r[k] in points
  {
    if |points| == 0 then []
    else
      var rest := Clip(points[..|points| - 1], n);
      var p := points[|points| - 1];
      assert forall q :: q in points <==> q in points[..|points| - 1] || q == p;
      if 0 < p < n then rest + [p] else rest
  }

  /** `containsSymbol`: some listed column of `data` holds a symbol. */
  method ContainsSymbol(data: string, points: seq<int>) returns (found: bool)
    requires forall k :: 0 <= k < |points| ==> 0 <= points[k] < |data|
    ensures found <==> exists k :: 0 <= k < |points| && IsSymbol(data[points[k]])
  {
    for k := 0 to |points|
      invariant forall j :: 0 <= j < k ==> !IsSymbol(data[points[j]])
    {
      if IsSymbol(data[points[k]]) {
        return true;
      }
    }
    return false;
  }

  /** `EngineSchematic`: the scanner over the input lines and the window of
      the previous, current and next line. */
  class EngineSchematic {
    /** The lines the scanner yields, and how many it has yielded. */
    const input: seq<string>
    var read: nat
    var prev: string
    var curr: string
    var next: string
    /** The index of the current line in `input`. */
    ghost var line: int

    /** The window sits at `line`, and the scanner has yielded the line
        after it. */
    ghost predicate Valid()
      reads this
    {
      -2 <= line &&
      prev == Row(input, line - 1) && curr == Row(input, line) && next == Row(input, line + 1) &&
      read == if line + 2 <= |input| then line + 2 else |input|
    }

    /** `newSchematicFromFile`: an empty window advanced once, so that the
        first line is the next one. */
    constructor (input: seq<string>)
      ensures Valid() && this.input == input && line == -1
    {
      this.input := input;
      read := 0;
      prev, curr, next := [], [], [];
      line := -2;
      new;
      var _ := AdvanceLines();
    }

    /** `advanceLines`: the window moves down one line; past the last line
        the next row is empty. It always reports success. */
    method AdvanceLines() returns (more: bool)
      requires Valid()
      modifies this
      ensures Valid() && more
      ensures line == old(line) + 1
      ensures prev == old(curr) && curr == old(next)
    {
      var c, n := curr, next;
      curr := n;
      prev := c;
      if read < |input| {
        next := input[read];
        read := read + 1;
      } else {
        next := [];
      }
      line := line + 1;
      more := true;
    }

    /** `filterPoints`: the points inside the current row, except column 0. */
    method FilterPoints(points: seq<int>) returns (filtered: seq<int>)
      ensures filtered == Clip(points, |curr|)
    {
      filtered := [];
      for k := 0 to |points|
        invariant filtered == Clip(points[..k], |curr|)
      {
        assert points[..k + 1][..k] == points[..k];
        if 0 < points[k] < |curr| {
          filtered := filtered + [points[k]];
        }
      }
      assert points[..|points|] == points;
    }

    /** `isEnginePart`: a symbol lies, in a present row of the window, in a
        checked column from pos - 1 to pos + the number's width. */
    method IsEnginePart(number: int, pos: int) returns (part: bool)
      requires Aligned(prev, curr, next) && number >= 1
      ensures part <==> SymbolNear(prev, curr, next, pos, pos + Utils.LengthOfInt(number))
    {
      var end := pos + Utils.LengthOfInt(number);
      var points := Utils.MakeRange(pos - 1, end + 1);
      var validPoints := FilterPoints(points);
      Utils.RangeMembers(points, pos - 1, end + 1);
      NearInPoints(prev, curr, next, pos, end, validPoints);
      if |prev| > 0 && |validPoints| > 0 {
        var found := ContainsSymbol(prev, validPoints);
        if found {
          return true;
        }
      }
      if |next| > 0 && |validPoints| > 0 {
        var found := ContainsSymbol(next, validPoints);
        if found {
          return true;
        }
      }
      part := ContainsSymbol(curr, validPoints);
    }

    /** `findNumbers`: the engine parts of the current row, left to right;
        after a number the scan resumes one column past its end. */
    method FindNumbers() returns (numbers: seq<int>)
      requires Aligned(prev, curr, next) && Utils.NoLeadingZeros(curr)
      ensures numbers == PartsFrom(prev, curr, next, 0)
    {
      ghost var parts := Scan(prev, curr, next, 0, []);
      numbers := [];
      var i := 0;
      while i < |curr|
        invariant 0 <= i <= |curr| + 1
        invariant i == 0 || i > |curr| || !Utils.IsDigit(curr[i - 1])
        invariant Scan(prev, curr, next, i, numbers) == parts
      {
        var number, ok := Utils.FindNumberInBytes(curr, i);
        ghost var start, before := i, numbers;
        var part := false;
        if ok {
          Utils.RunWidth(curr, i);
          part := IsEnginePart(number, i);
          if part {
            numbers := numbers + [number];
          }
          i := i + Utils.LengthOfInt(number);
        }
        i := i + 1;
        FindStep(prev, curr, next, start, number, ok, part, before, numbers, i);
      }
      ScanParts(prev, curr, next, 0, []);
      assert [] + PartsFrom(prev, curr, next, 0) == PartsFrom(prev, curr, next, 0);
    }

    /** `FindAllNumbers`: the engine parts of each row in turn, until the
        current row is empty. */
    method FindAllNumbers() returns (numbers: seq<int>)
      requires Valid() && line == -1 && Schematic(input)
      modifies this
      ensures numbers == NumbersFrom(input, 0)
    {
      ghost var all := ScanRows(input, 0, []);
      numbers := [];
      var more := AdvanceLines();
      while more && |curr| > 0
        invariant Valid() && line >= 0 && more
        invariant ScanRows(input, line, numbers) == all
        decreases |input| - line
      {
        RowAligned(input, line);
        var rowNumbers := FindNumbers();
        assert rowNumbers == RowParts(input, line);
        numbers := numbers + rowNumbers;
        more := AdvanceLines();
      }
      ScanRowsNumbers(input, 0, []);
      assert [] + NumbersFrom(input, 0) == NumbersFrom(input, 0);
    }
  }

  /** `Day3`: the sum of the engine parts of the schematic. */
  method Day3(input: seq<string>) returns (sum: int)
    requires Schematic(input)
    ensures sum == Collections.Sum(NumbersFrom(input, 0))
  {
    var schematic := new EngineSchematic(input);
    var numbers := schematic.FindAllNumbers();
    sum := 0;
    for k := 0 to |numbers|
      invariant sum == Collections.Sum(numbers[..k])
    {
      assert numbers[..k + 1][..k] == numbers[..k];
      sum := sum + numbers[k];
    }
    assert numbers[..|numbers|] == numbers;
  }
}
