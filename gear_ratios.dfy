/** solutions/day3.go: Gear Ratios, second version. A buffered reader feeds a
    three-row window over the engine schematic; a number in the middle row
    is kept when one of the points around it holds a symbol, and a number
    next to a `*` is filed under that gear. The solver sums the kept numbers,
    and over the gears with at least two numbers it sums their products. */
module GearRatios {
  import opened Wrappers
  import Utils
  import Collections
  import EngineParts

  /** A byte of the schematic (`ch`, the source's `char`) and where it
      sits: `x` is the window's row counter for its line, `y` its column. */
  datatype Point = Point(ch: char, x: int, y: int)

  /** The symbol point found next to a number, and whether it is a `*`. */
  datatype Part = Part(point: Point, gear: bool)

  /** `Part{}`, what `checkPoints` returns when there is no symbol. */
  const NoPart := Part(Point(0 as char, 0, 0), false)

  // ---------------------------------------------------------------------
  // The reader

  /** The first '\n' of `s` at or after `i`, or -1. */
  function NewlineFrom(s: string, i: nat): (k: int)
    ensures k == -1 || (i <= k < |s| && s[k] == '\n')
    decreases |s| - i
  {
    if i >= |s| then -1 else if s[i] == '\n' then i else NewlineFrom(s, i + 1)
  }

  /** The first '\n' at or after `i` is found, whatever the text after it. */
  lemma {:induction false} NewlineFromFirst(s: string, i: nat, n: nat)
    requires i <= n < |s| && s[n] == '\n'
    requires forall j :: i <= j < n ==> s[j] != '\n'
    ensures NewlineFrom(s, i) == n
    decreases n - i
  {
    if i < n {
      NewlineFromFirst(s, i + 1, n);
    }
  }

  /** The lines `ReadBytes('\n')` hands to `advanceLines` before io.EOF,
      each without its '\n'. Text after the last '\n' comes back with
      io.EOF, and `advanceLines` drops it. */
  function Lines(text: string): seq<string>
    decreases |text|
  {
    var k := NewlineFrom(text, 0);
    if k < 0 then [] else [text[..k]] + Lines(text[k + 1..])
  }

  /** The text of newline-terminated lines. */
  function Unlines(ls: seq<string>): string {
    if |ls| == 0 then "" else ls[0] + "\n" + Unlines(ls[1..])
  }

  predicate NoNewline(s: string) {
    forall i :: 0 <= i < |s| ==> s[i] != '\n'
  }

  /** A line without '\n' followed by '\n' is read back as that line,
      and reading goes on after the '\n'. */
  lemma LinesCons(line: string, rest: string)
    requires NoNewline(line)
    ensures Lines(line + "\n" + rest) == [line] + Lines(rest)
  {
    var t := line + "\n" + rest;
    var n := |line|;
    assert t[n] == '\n';
    assert forall j :: 0 <= j < n ==> t[j] == line[j];
    NewlineFromFirst(t, 0, n);
    assert t[..n] == line;
    assert t[n + 1..] == rest;
  }

  /** Reading terminated lines gives them back; an unterminated last line
      is lost. */
  lemma {:induction false} LinesUnlines(ls: seq<string>, tail: string)
    requires forall j :: 0 <= j < |ls| ==> NoNewline(ls[j])
    requires NoNewline(tail)
    ensures Lines(Unlines(ls) + tail) == ls
  {
    if |ls| == 0 {
      assert Unlines(ls) + tail == tail;
    } else {
      var rest := Unlines(ls[1..]) + tail;
      assert Unlines(ls) + tail == ls[0] + "\n" + rest;
      LinesCons(ls[0], rest);
      LinesUnlines(ls[1..], tail);
      assert [ls[0]] + ls[1..] == ls;
    }
  }

  /** A schematic whose last line has no '\n' loses that line. */
  lemma LastLineLost()
    ensures Lines("1.\n.*") == ["1."]
  {
    LinesUnlines(["1."], ".*");
    assert Unlines(["1."]) + ".*" == "1.\n.*";
  }

  /** Reading from the text that holds lines j on gives line j (or the
      empty row at io.EOF), and leaves the text that holds lines j + 1 on. */
  lemma ReadStep(lines: seq<string>, j: int, rest: string)
    requires 0 <= j && Lines(rest) == lines[if j <= |lines| then j else |lines|..]
    ensures NewlineFrom(rest, 0) < 0 ==>
              EngineParts.Row(lines, j) == [] && Lines([]) == lines[if j + 1 <= |lines| then j + 1 else |lines|..]
    ensures NewlineFrom(rest, 0) >= 0 ==>
              rest[..NewlineFrom(rest, 0)] == EngineParts.Row(lines, j) &&
              Lines(rest[NewlineFrom(rest, 0) + 1..]) == lines[if j + 1 <= |lines| then j + 1 else |lines|..]
  {
    var k := NewlineFrom(rest, 0);
    var pending := lines[if j <= |lines| then j else |lines|..];
    if k >= 0 {
      assert pending == [rest[..k]] + Lines(rest[k + 1..]);
      assert pending[1..] == lines[if j + 1 <= |lines| then j + 1 else |lines|..];
    } else {
      assert |pending| == 0;
    }
  }

  // ---------------------------------------------------------------------
  // The points around a number

  /** The points of column i appended to `points`, as `getPointsToCheck`
      appends them: above (row - 1, when that row is present), in the middle
      row (row), below (row + 1, when present). */
  function AddColumn(points: seq<Point>, prev: string, curr: string, next: string, row: int, i: int): seq<Point>
    requires EngineParts.Aligned(prev, curr, next) && 0 <= i < |curr|
  {
    var above := if |prev| > 0 then points + [Point(prev[i], row - 1, i)] else points;
    var middle := above + [Point(curr[i], row, i)];
    if |next| > 0 then middle + [Point(next[i], row + 1, i)] else middle
  }

  /** The points of the columns lo .. hi - 1 that lie in the middle row,
      column by column. */
  function PointsBetween(prev: string, curr: string, next: string, row: int, lo: int, hi: int): seq<Point>
    requires EngineParts.Aligned(prev, curr, next)
    decreases hi - lo
  {
    if hi <= lo then []
    else
      var points := PointsBetween(prev, curr, next, row, lo, hi - 1);
      if 0 <= hi - 1 < |curr| then AddColumn(points, prev, curr, next, row, hi - 1) else points
  }

  /** One more column appends that column's points. */
  lemma PointsBetweenStep(prev: string, curr: string, next: string, row: int, lo: int, hi: int)
    requires EngineParts.Aligned(prev, curr, next) && lo <= hi
    ensures PointsBetween(prev, curr, next, row, lo, hi + 1) ==
            var points := PointsBetween(prev, curr, next, row, lo, hi);
            if 0 <= hi < |curr| then AddColumn(points, prev, curr, next, row, hi) else points
  {
  }

  /** A point lies in the window's columns lo .. hi - 1 of the middle row's
      width, in a present row, and carries that row's byte. */
  predicate InWindow(prev: string, curr: string, next: string, row: int, lo: int, hi: int, pt: Point)
    requires EngineParts.Aligned(prev, curr, next)
  {
    lo <= pt.y < hi && 0 <= pt.y < |curr| &&
    ((|prev| > 0 && pt == Point(prev[pt.y], row - 1, pt.y)) ||
     pt == Point(curr[pt.y], row, pt.y) ||
     (|next| > 0 && pt == Point(next[pt.y], row + 1, pt.y)))
  }

  /** The points checked are exactly the window's points in those columns. */
  lemma {:induction false} PointsBetweenMembers(prev: string, curr: string, next: string, row: int, lo: int, hi: int, pt: Point)
    requires EngineParts.Aligned(prev, curr, next)
    ensures pt in PointsBetween(prev, curr, next, row, lo, hi) <==> InWindow(prev, curr, next, row, lo, hi, pt)
    decreases hi - lo
  {
    if hi > lo {
      PointsBetweenMembers(prev, curr, next, row, lo, hi - 1, pt);
    }
  }

  /** `checkPoints`'s answer: the first point holding a symbol, from index
      k on, marked as a gear when it is `*`. */
  function FirstPartFrom(points: seq<Point>, k: nat): Option<Part>
    decreases |points| - k
  {
    if k >= |points| then None
    else if EngineParts.IsSymbol(points[k].ch) then Some(Part(points[k], points[k].ch == '*'))
    else FirstPartFrom(points, k + 1)
  }

  /** There is an answer exactly when some point holds a symbol. */
  lemma {:induction false} FirstPartNone(points: seq<Point>, k: nat)
    ensures FirstPartFrom(points, k).None? <==>
            forall j :: k <= j < |points| ==> !EngineParts.IsSymbol(points[j].ch)
    decreases |points| - k
  {
    if k < |points| {
      FirstPartNone(points, k + 1);
    }
  }

  /** The answer is the first symbol point. */
  lemma {:induction false} FirstPartAt(points: seq<Point>, k: nat, j: nat)
    requires k <= j < |points| && EngineParts.IsSymbol(points[j].ch)
    requires forall i :: k <= i < j ==> !EngineParts.IsSymbol(points[i].ch)
    ensures FirstPartFrom(points, k) == Some(Part(points[j], points[j].ch == '*'))
    decreases j - k
  {
    if k < j {
      FirstPartAt(points, k + 1, j);
    }
  }

  /** `checkPoints`: the first point that is neither a digit nor `.`, as a
      gear when it is `*`; `(Part{}, false)` when there is none. */
  method CheckPoints(points: seq<Point>) returns (part: Part, ok: bool)
    ensures ok <==> FirstPartFrom(points, 0).Some?
    ensures part == if ok then FirstPartFrom(points, 0).value else NoPart
  {
    for k := 0 to |points|
      invariant FirstPartFrom(points, k) == FirstPartFrom(points, 0)
    {
      var point := points[k];
      if !Utils.IsDigit(point.ch) && point.ch != '.' {
        part := Part(point, false);
        if point.ch == '*' {
          part := part.(gear := true);
        }
        return part, true;
      }
    }
    return NoPart, false;
  }

  // ---------------------------------------------------------------------
  // The scan of one row

  /** `checkNumber`'s answer for a number of `width` digits at column pos:
      the first symbol among the points of columns pos - 1 .. pos + width. */
  function Check(prev: string, curr: string, next: string, row: int, pos: int, width: int): Option<Part>
    requires EngineParts.Aligned(prev, curr, next)
  {
    FirstPartFrom(PointsBetween(prev, curr, next, row, pos - 1, pos + width + 1), 0)
  }

  /** The part next to the number whose digit run starts at column i. */
  function PartAt(prev: string, curr: string, next: string, row: int, i: nat): Option<Part>
    requires EngineParts.Aligned(prev, curr, next) && i < |curr|
  {
    if Utils.RunStart(curr, i) then Check(prev, curr, next, row, i, Utils.DigitRunEnd(curr, i) - i) else None
  }

  /** Column y of the middle row's width holds a symbol in a row of the
      window that is present. */
  predicate SymbolColumn(prev: string, curr: string, next: string, y: int)
    requires EngineParts.Aligned(prev, curr, next)
  {
    0 <= y < |curr| &&
    ((|prev| > 0 && EngineParts.IsSymbol(prev[y])) || EngineParts.IsSymbol(curr[y]) ||
     (|next| > 0 && EngineParts.IsSymbol(next[y])))
  }

  /** Some column from lo to hi holds a symbol. */
  predicate SymbolInColumns(prev: string, curr: string, next: string, lo: int, hi: int)
    requires EngineParts.Aligned(prev, curr, next)
  {
    exists y :: lo <= y <= hi && SymbolColumn(prev, curr, next, y)
  }

  /** `checkNumber` finds a part exactly when a column from pos - 1 to
      pos + width holds a symbol. */
  lemma CheckFinds(prev: string, curr: string, next: string, row: int, pos: int, width: int)
    requires EngineParts.Aligned(prev, curr, next)
    ensures Check(prev, curr, next, row, pos, width).Some? <==>
            SymbolInColumns(prev, curr, next, pos - 1, pos + width)
  {
    if Check(prev, curr, next, row, pos, width).Some? {
      FoundSymbolColumn(prev, curr, next, row, pos, width);
    }
    if y :| pos - 1 <= y <= pos + width && SymbolColumn(prev, curr, next, y) {
      SymbolColumnFound(prev, curr, next, row, pos, width, y);
    }
  }

  /** A part found by `checkNumber` stands in a symbol column. */
  lemma FoundSymbolColumn(prev: string, curr: string, next: string, row: int, pos: int, width: int)
    requires EngineParts.Aligned(prev, curr, next)
    requires Check(prev, curr, next, row, pos, width).Some?
    ensures SymbolInColumns(prev, curr, next, pos - 1, pos + width)
  {
    var lo, hi := pos - 1, pos + width + 1;
    var points := PointsBetween(prev, curr, next, row, lo, hi);
    FirstPartNone(points, 0);
    var j :| 0 <= j < |points| && EngineParts.IsSymbol(points[j].ch);
    PointsBetweenMembers(prev, curr, next, row, lo, hi, points[j]);
    assert SymbolColumn(prev, curr, next, points[j].y);
  }

  /** A symbol column in the window makes `checkNumber` find a part. */
  lemma SymbolColumnFound(prev: string, curr: string, next: string, row: int, pos: int, width: int, y: int)
    requires EngineParts.Aligned(prev, curr, next)
    requires pos - 1 <= y <= pos + width && SymbolColumn(prev, curr, next, y)
    ensures Check(prev, curr, next, row, pos, width).Some?
  {
    var lo, hi := pos - 1, pos + width + 1;
    if |prev| > 0 && EngineParts.IsSymbol(prev[y]) {
      SymbolPointFound(prev, curr, next, row, lo, hi, Point(prev[y], row - 1, y));
    } else if EngineParts.IsSymbol(curr[y]) {
      SymbolPointFound(prev, curr, next, row, lo, hi, Point(curr[y], row, y));
    } else {
      SymbolPointFound(prev, curr, next, row, lo, hi, Point(next[y], row + 1, y));
    }
  }

  /** A symbol at one of the window's points makes `checkPoints` answer. */
  lemma SymbolPointFound(prev: string, curr: string, next: string, row: int, lo: int, hi: int, pt: Point)
    requires EngineParts.Aligned(prev, curr, next)
    requires InWindow(prev, curr, next, row, lo, hi, pt) && EngineParts.IsSymbol(pt.ch)
    ensures FirstPartFrom(PointsBetween(prev, curr, next, row, lo, hi), 0).Some?
  {
    var points := PointsBetween(prev, curr, next, row, lo, hi);
    PointsBetweenMembers(prev, curr, next, row, lo, hi, pt);
    FirstPartNone(points, 0);
    var j :| 0 <= j < |points| && points[j] == pt;
  }

  /** The part found at each column of the middle row: `PartAt` at the
      start of each digit run, `None` elsewhere. */
  function Parts(prev: string, curr: string, next: string, row: int): (ps: seq<Option<Part>>)
    requires EngineParts.Aligned(prev, curr, next)
  {
    seq(|curr|, i requires 0 <= i < |curr| => PartAt(prev, curr, next, row, i))
  }

  /** The number kept at column i, if one is. */
  function NumberAt(ps: seq<Option<Part>>, curr: string, i: nat): seq<int>
    requires |ps| == |curr| && i < |curr|
  {
    if ps[i].Some? then [Utils.RunValue(curr, i) as int] else []
  }

  /** The numbers kept in the row from column i on, left to right, given
      the part found at each column. */
  function RowNumbers(ps: seq<Option<Part>>, curr: string, i: nat): seq<int>
    requires |ps| == |curr|
    decreases |curr| - i
  {
    if i >= |curr| then [] else NumberAt(ps, curr, i) + RowNumbers(ps, curr, i + 1)
  }

  /** The loop of `findRowNumbers` from column i, with the numbers kept so
      far in `acc`. */
  function ScanNumbers(ps: seq<Option<Part>>, curr: string, i: nat, acc: seq<int>): seq<int>
    requires |ps| == |curr|
    decreases |curr| - i
  {
    if i >= |curr| then acc else ScanNumbers(ps, curr, i + 1, acc + NumberAt(ps, curr, i))
  }

  /** The numbers filed under a part so far (Go's nil slice when absent). */
  function Filed(g: map<Part, seq<int>>, p: Part): seq<int> {
    if p in g then g[p] else []
  }

  /** `gears[part] = append(gears[part], n)` for a gear part. */
  function AddGear(g: map<Part, seq<int>>, part: Option<Part>, n: int): map<Part, seq<int>> {
    if part.Some? && part.value.gear then g[part.value := Filed(g, part.value) + [n]] else g
  }

  /** The gear map after the loop of `findRowNumbers` from column i. */
  function RowGears(ps: seq<Option<Part>>, curr: string, i: nat, g: map<Part, seq<int>>): map<Part, seq<int>>
    requires |ps| == |curr|
    decreases |curr| - i
  {
    if i >= |curr| then g else RowGears(ps, curr, i + 1, AddGear(g, ps[i], Utils.RunValue(curr, i)))
  }

  /** One column of the loop files that column's number. */
  lemma RowGearsStep(ps: seq<Option<Part>>, curr: string, i: nat, g: map<Part, seq<int>>)
    requires |ps| == |curr| && i < |curr|
    ensures RowGears(ps, curr, i, g) == RowGears(ps, curr, i + 1, AddGear(g, ps[i], Utils.RunValue(curr, i)))
  {
  }

  /** The numbers of the row from column i on that are filed under gear p. */
  function GearNumbers(ps: seq<Option<Part>>, curr: string, i: nat, p: Part): seq<int>
    requires |ps| == |curr|
    decreases |curr| - i
  {
    if i >= |curr| then []
    else (if p.gear && ps[i] == Some(p) then [Utils.RunValue(curr, i) as int] else []) + GearNumbers(ps, curr, i + 1, p)
  }

  /** At a column, this version keeps the number that the first version
      (2023/day3.go) keeps, as long as column 0 holds no symbol: that
      version does not look at column 0. */
  lemma SameAt(prev: string, curr: string, next: string, row: int, i: nat)
    requires EngineParts.Aligned(prev, curr, next) && i < |curr|
    requires !SymbolColumn(prev, curr, next, 0)
    ensures NumberAt(Parts(prev, curr, next, row), curr, i) == EngineParts.PartAt(prev, curr, next, i)
  {
    var ps := Parts(prev, curr, next, row);
    assert ps[i] == PartAt(prev, curr, next, row, i);
    if Utils.RunStart(curr, i) {
      RunFound(prev, curr, next, row, i);
    } else {
      assert ps[i].None?;
    }
  }

  /** A number starting at column i is reported exactly when the first
      version finds a symbol around it. */
  lemma RunFound(prev: string, curr: string, next: string, row: int, i: nat)
    requires EngineParts.Aligned(prev, curr, next) && i < |curr| && Utils.RunStart(curr, i)
    requires !SymbolColumn(prev, curr, next, 0)
    ensures PartAt(prev, curr, next, row, i).Some? <==>
            EngineParts.SymbolNear(prev, curr, next, i, Utils.DigitRunEnd(curr, i))
  {
    var e := Utils.DigitRunEnd(curr, i);
    CheckFinds(prev, curr, next, row, i, e - i);
    assert i + (e - i) == e;
    SymbolNearColumns(prev, curr, next, i, e);
  }

  /** Without a symbol in column 0, the columns the first version checks
      for a symbol are the columns of this version's window. */
  lemma SymbolNearColumns(prev: string, curr: string, next: string, start: int, end: int)
    requires EngineParts.Aligned(prev, curr, next)
    requires !SymbolColumn(prev, curr, next, 0)
    ensures EngineParts.SymbolNear(prev, curr, next, start, end) <==>
            SymbolInColumns(prev, curr, next, start - 1, end)
  {
    if EngineParts.SymbolNear(prev, curr, next, start, end) {
      var y :| start - 1 <= y <= end && EngineParts.SymbolAt(prev, curr, next, y);
      assert SymbolColumn(prev, curr, next, y);
    }
    if y :| start - 1 <= y <= end && SymbolColumn(prev, curr, next, y) {
      assert EngineParts.SymbolAt(prev, curr, next, y);
    }
  }

  /** Without a symbol in column 0, both versions keep the same numbers of
      a row. */
  lemma {:induction false} SameRowNumbers(prev: string, curr: string, next: string, row: int, i: nat)
    requires EngineParts.Aligned(prev, curr, next)
    requires !SymbolColumn(prev, curr, next, 0)
    ensures RowNumbers(Parts(prev, curr, next, row), curr, i) == EngineParts.PartsFrom(prev, curr, next, i)
    decreases |curr| - i
  {
    if i < |curr| {
      SameAt(prev, curr, next, row, i);
      SameRowNumbers(prev, curr, next, row, i + 1);
    }
  }

  /** A symbol in column 0 diagonally above a number: this version keeps
      the number, the first version does not. */
  lemma ColumnZero()
    ensures RowNumbers(Parts("*..", ".1.", "", 3), ".1.", 0) == [1]
    ensures EngineParts.PartsFrom("*..", ".1.", "", 0) == []
  {
  }

  /** The scan appends the row's kept numbers to what it has found. */
  lemma {:induction false} ScanRowNumbers(ps: seq<Option<Part>>, curr: string, i: nat, acc: seq<int>)
    requires |ps| == |curr|
    ensures ScanNumbers(ps, curr, i, acc) == acc + RowNumbers(ps, curr, i)
    decreases |curr| - i
  {
    if i < |curr| {
      var here := NumberAt(ps, curr, i);
      ScanRowNumbers(ps, curr, i + 1, acc + here);
      Collections.AppendAssoc(acc, here, RowNumbers(ps, curr, i + 1));
    }
  }

  /** The scan files under each gear the row's numbers next to it, after
      what was filed before. */
  lemma {:induction false} RowGearsFiled(ps: seq<Option<Part>>, curr: string, i: nat, g: map<Part, seq<int>>, p: Part)
    requires |ps| == |curr|
    ensures Filed(RowGears(ps, curr, i, g), p) == Filed(g, p) + GearNumbers(ps, curr, i, p)
    decreases |curr| - i
  {
    if i < |curr| {
      var g' := AddGear(g, ps[i], Utils.RunValue(curr, i));
      var here := if p.gear && ps[i] == Some(p) then [Utils.RunValue(curr, i) as int] else [];
      assert Filed(g', p) == Filed(g, p) + here;
      RowGearsFiled(ps, curr, i + 1, g', p);
      Collections.AppendAssoc(Filed(g, p), here, GearNumbers(ps, curr, i + 1, p));
    }
  }

  /** The scan makes a key of a part exactly when it files a number under
      it. */
  lemma {:induction false} RowGearsKeys(ps: seq<Option<Part>>, curr: string, i: nat, g: map<Part, seq<int>>, p: Part)
    requires |ps| == |curr|
    ensures p in RowGears(ps, curr, i, g) <==> p in g || |GearNumbers(ps, curr, i, p)| > 0
    decreases |curr| - i
  {
    if i < |curr| {
      var g' := AddGear(g, ps[i], Utils.RunValue(curr, i));
      assert p in g' <==> p in g || (p.gear && ps[i] == Some(p));
      RowGearsKeys(ps, curr, i + 1, g', p);
    }
  }

  /** A column with no part changes neither the numbers nor the gears. */
  lemma ScanNoPart(ps: seq<Option<Part>>, curr: string, i: nat, acc: seq<int>, g: map<Part, seq<int>>)
    requires |ps| == |curr| && (i < |curr| ==> ps[i].None?)
    ensures ScanNumbers(ps, curr, i + 1, acc) == ScanNumbers(ps, curr, i, acc)
    ensures RowGears(ps, curr, i + 1, g) == RowGears(ps, curr, i, g)
  {
    if i < |curr| {
      assert acc + NumberAt(ps, curr, i) == acc;
    }
  }

  lemma {:induction false} ScanSkip(ps: seq<Option<Part>>, curr: string, a: nat, b: nat, acc: seq<int>, g: map<Part, seq<int>>)
    requires |ps| == |curr|
    requires a <= b && forall j :: a <= j < b && j < |curr| ==> ps[j].None?
    ensures ScanNumbers(ps, curr, a, acc) == ScanNumbers(ps, curr, b, acc)
    ensures RowGears(ps, curr, a, g) == RowGears(ps, curr, b, g)
    decreases b - a
  {
    if a < b {
      ScanNoPart(ps, curr, a, acc, g);
      ScanSkip(ps, curr, a + 1, b, acc, g);
    }
  }

  /** Where no run starts there is no part. */
  lemma NoRunNoPart(prev: string, curr: string, next: string, row: int, i: nat)
    requires EngineParts.Aligned(prev, curr, next) && !Utils.RunStart(curr, i)
    ensures i < |curr| ==> Parts(prev, curr, next, row)[i].None?
  {
  }

  /** Inside a run and just past it there is no part. */
  lemma RunInteriorNoPart(prev: string, curr: string, next: string, row: int, i: nat)
    requires EngineParts.Aligned(prev, curr, next) && Utils.RunStart(curr, i)
    ensures forall j :: i < j < Utils.DigitRunEnd(curr, i) ==> Parts(prev, curr, next, row)[j].None?
  {
    Utils.RunInterior(curr, i);
  }

  /** At the start of a run the part found is `checkNumber`'s answer, and
      the run is as wide as its value's digit count. */
  lemma PartAtRun(prev: string, curr: string, next: string, row: int, i: nat, number: int)
    requires EngineParts.Aligned(prev, curr, next) && Utils.RunStart(curr, i) && Utils.NoLeadingZeros(curr)
    requires number == Utils.RunValue(curr, i)
    ensures number >= 1 && i + Utils.LengthOfInt(number) == Utils.DigitRunEnd(curr, i)
    ensures Parts(prev, curr, next, row)[i] == Check(prev, curr, next, row, i, Utils.LengthOfInt(number))
  {
    Utils.RunWidth(curr, i);
  }

  /** `checkNumber`'s answer at the start of a run is the part found
      there. */
  lemma CheckedPart(prev: string, curr: string, next: string, row: int, ps: seq<Option<Part>>, i: nat,
                    number: int, found: bool, part: Part)
    requires EngineParts.Aligned(prev, curr, next) && Utils.NoLeadingZeros(curr)
    requires ps == Parts(prev, curr, next, row)
    requires Utils.RunStart(curr, i) && number == Utils.RunValue(curr, i) && number >= 1
    requires found <==> Check(prev, curr, next, row, i, Utils.LengthOfInt(number)).Some?
    requires part == if found then Check(prev, curr, next, row, i, Utils.LengthOfInt(number)).value else NoPart
    ensures ps[i] == if found then Some(part) else None
  {
    PartAtRun(prev, curr, next, row, i, number);
  }

  /** The loop of `findRowNumbers` at a run whose part is `ps[i]`: the
      number is kept and filed as that part says, and the scan resumes at
      the end of the run. */
  lemma ScanRun(ps: seq<Option<Part>>, curr: string, i: nat, e: nat, number: int, found: bool, part: Part,
                before: seq<int>, numbers: seq<int>, g0: map<Part, seq<int>>, g: map<Part, seq<int>>)
    requires |ps| == |curr| && Utils.RunStart(curr, i) && number == Utils.RunValue(curr, i)
    requires e == Utils.DigitRunEnd(curr, i)
    requires forall j :: i < j < e ==> ps[j].None?
    requires ps[i] == if found then Some(part) else None
    requires numbers == if found then before + [number] else before
    requires g == if found && part.gear then g0[part := Filed(g0, part) + [number]] else g0
    ensures ScanNumbers(ps, curr, e, numbers) == ScanNumbers(ps, curr, i, before)
    ensures RowGears(ps, curr, e, g) == RowGears(ps, curr, i, g0)
  {
    ScanRunNumbers(ps, curr, i, e, before, numbers);
    ScanRunGears(ps, curr, i, e, g0, g);
  }

  /** The numbers half of `ScanRun`. */
  lemma ScanRunNumbers(ps: seq<Option<Part>>, curr: string, i: nat, e: nat, before: seq<int>, numbers: seq<int>)
    requires |ps| == |curr| && Utils.RunStart(curr, i)
    requires e == Utils.DigitRunEnd(curr, i)
    requires forall j :: i < j < e ==> ps[j].None?
    requires numbers == before + NumberAt(ps, curr, i)
    ensures ScanNumbers(ps, curr, e, numbers) == ScanNumbers(ps, curr, i, before)
  {
    assert ScanNumbers(ps, curr, i, before) == ScanNumbers(ps, curr, i + 1, numbers);
    ScanSkip(ps, curr, i + 1, e, numbers, map[]);
  }

  /** The gears half of `ScanRun`. */
  lemma ScanRunGears(ps: seq<Option<Part>>, curr: string, i: nat, e: nat, g0: map<Part, seq<int>>, g: map<Part, seq<int>>)
    requires |ps| == |curr| && Utils.RunStart(curr, i)
    requires e == Utils.DigitRunEnd(curr, i)
    requires forall j :: i < j < e ==> ps[j].None?
    requires g == AddGear(g0, ps[i], Utils.RunValue(curr, i))
    ensures RowGears(ps, curr, e, g) == RowGears(ps, curr, i, g0)
  {
    RowGearsStep(ps, curr, i, g0);
    ScanSkip(ps, curr, i + 1, e, [], g);
  }

  // ---------------------------------------------------------------------
  // The scan of the whole schematic

  /** The part found at each column of non-empty line r, whose row counter
      is r + 3. */
  ghost function LineParts(lines: seq<string>, r: nat): seq<Option<Part>>
    requires EngineParts.Schematic(lines) && r < |lines| && |lines[r]| > 0
  {
    EngineParts.RowAligned(lines, r);
    Parts(EngineParts.Row(lines, r - 1), lines[r], EngineParts.Row(lines, r + 1), r + 3)
  }

  /** The numbers kept in the lines from r on, line by line, up to the first
      empty line. */
  ghost function PartNumbers(lines: seq<string>, r: nat): seq<int>
    requires EngineParts.Schematic(lines)
    decreases |lines| - r
  {
    if r >= |lines| || |lines[r]| == 0 then []
    else RowNumbers(LineParts(lines, r), lines[r], 0) + PartNumbers(lines, r + 1)
  }

  /** The loop of `findPartNumbers` from line r, with what it has kept so
      far in `acc`. */
  ghost function ScanLines(lines: seq<string>, r: nat, acc: seq<int>): seq<int>
    requires EngineParts.Schematic(lines)
    decreases |lines| - r
  {
    if r >= |lines| || |lines[r]| == 0 then acc
    else ScanLines(lines, r + 1, acc + RowNumbers(LineParts(lines, r), lines[r], 0))
  }

  /** The gear map after the loop of `findPartNumbers` from line r. */
  ghost function FileGears(lines: seq<string>, r: nat, g: map<Part, seq<int>>): map<Part, seq<int>>
    requires EngineParts.Schematic(lines)
    decreases |lines| - r
  {
    if r >= |lines| || |lines[r]| == 0 then g
    else FileGears(lines, r + 1, RowGears(LineParts(lines, r), lines[r], 0, g))
  }

  /** The numbers of the lines from r on that are filed under gear p. */
  ghost function LineGearNumbers(lines: seq<string>, r: nat, p: Part): seq<int>
    requires EngineParts.Schematic(lines)
    decreases |lines| - r
  {
    if r >= |lines| || |lines[r]| == 0 then []
    else GearNumbers(LineParts(lines, r), lines[r], 0, p) + LineGearNumbers(lines, r + 1, p)
  }

  /** The loop appends the kept numbers of the lines from r on. */
  lemma {:induction false} ScanLinesNumbers(lines: seq<string>, r: nat, acc: seq<int>)
    requires EngineParts.Schematic(lines)
    ensures ScanLines(lines, r, acc) == acc + PartNumbers(lines, r)
    decreases |lines| - r
  {
    if r < |lines| && |lines[r]| > 0 {
      var here := RowNumbers(LineParts(lines, r), lines[r], 0);
      ScanLinesNumbers(lines, r + 1, acc + here);
      Collections.AppendAssoc(acc, here, PartNumbers(lines, r + 1));
    }
  }

  /** One non-empty line of `FileGears`. */
  lemma FileGearsStep(lines: seq<string>, r: nat, g: map<Part, seq<int>>)
    requires EngineParts.Schematic(lines) && r < |lines| && |lines[r]| > 0
    ensures FileGears(lines, r, g) == FileGears(lines, r + 1, RowGears(LineParts(lines, r), lines[r], 0, g))
  {
  }

  /** One non-empty line of `LineGearNumbers`. */
  lemma LineGearNumbersStep(lines: seq<string>, r: nat, p: Part)
    requires EngineParts.Schematic(lines) && r < |lines| && |lines[r]| > 0
    ensures LineGearNumbers(lines, r, p) == GearNumbers(LineParts(lines, r), lines[r], 0, p) + LineGearNumbers(lines, r + 1, p)
  {
  }

  /** The gear map files under each gear the numbers next to it, line by
      line and left to right, after what was filed before. */
  lemma {:induction false} FileGearsFiled(lines: seq<string>, r: nat, g: map<Part, seq<int>>, p: Part)
    requires EngineParts.Schematic(lines)
    ensures Filed(FileGears(lines, r, g), p) == Filed(g, p) + LineGearNumbers(lines, r, p)
    decreases |lines| - r
  {
    if r < |lines| && |lines[r]| > 0 {
      var ps := LineParts(lines, r);
      var g' := RowGears(ps, lines[r], 0, g);
      var here := GearNumbers(ps, lines[r], 0, p);
      FileGearsStep(lines, r, g);
      LineGearNumbersStep(lines, r, p);
      RowGearsFiled(ps, lines[r], 0, g, p);
      FileGearsFiled(lines, r + 1, g', p);
      Collections.AppendAssoc(Filed(g, p), here, LineGearNumbers(lines, r + 1, p));
    }
  }

  /** A part is a key of the gear map exactly when it was one before or
      some number of the lines from r on is filed under it. */
  lemma {:induction false} FileGearsKeys(lines: seq<string>, r: nat, g: map<Part, seq<int>>, p: Part)
    requires EngineParts.Schematic(lines)
    ensures p in FileGears(lines, r, g) <==> p in g || |LineGearNumbers(lines, r, p)| > 0
    decreases |lines| - r
  {
    if r < |lines| && |lines[r]| > 0 {
      var ps := LineParts(lines, r);
      var g' := RowGears(ps, lines[r], 0, g);
      FileGearsStep(lines, r, g);
      LineGearNumbersStep(lines, r, p);
      RowGearsKeys(ps, lines[r], 0, g, p);
      FileGearsKeys(lines, r + 1, g', p);
    }
  }

  /** Only gears are keys of the map. */
  lemma {:induction false} GearNumbersGear(ps: seq<Option<Part>>, curr: string, i: nat, p: Part)
    requires |ps| == |curr| && !p.gear
    ensures GearNumbers(ps, curr, i, p) == []
    decreases |curr| - i
  {
    if i < |curr| {
      GearNumbersGear(ps, curr, i + 1, p);
    }
  }

  // ---------------------------------------------------------------------
  // The sliding window

  class EngineSchematic {
    /** The file's contents, the lines it yields, and what the reader has
        not consumed yet. */
    ghost const text: string
    ghost const lines: seq<string>
    var rest: string
    /** The row counter: 3 more than the index of the current line. */
    var row: int
    var gears: map<Part, seq<int>>
    var prev: string
    var curr: string
    var next: string
    /** The index of the current line in `lines`. */
    ghost var line: int

    /** The window sits at `line`, and the reader is past the line after
        it. */
    ghost predicate Valid()
      reads this
    {
      lines == Lines(text) && -2 <= line && row == line + 3 &&
      prev == EngineParts.Row(lines, line - 1) && curr == EngineParts.Row(lines, line) &&
      next == EngineParts.Row(lines, line + 1) &&
      Lines(rest) == lines[if line + 2 <= |lines| then line + 2 else |lines|..]
    }

    /** `newSchematicFromFile`: the row counter starts at 1 and the empty
        window is advanced once, so that the first line is the next one. */
    constructor (text: string)
      ensures Valid() && this.text == text && line == -1 && gears == map[]
    {
      this.text := text;
      lines := Lines(text);
      rest := text;
      row := 1;
      gears := map[];
      prev, curr, next := [], [], [];
      line := -2;
      new;
      var _ := AdvanceLines();
    }

    /** `advanceLines`: the window moves down one line and the row counter
        goes up; `ReadBytes('\n')` gives the next line with its '\n'
        dropped, and at io.EOF the next row is empty. It always reports
        success. */
    method AdvanceLines() returns (more: bool)
      requires Valid()
      modifies this
      ensures Valid() && more && gears == old(gears)
      ensures line == old(line) + 1 && row == old(row) + 1
      ensures prev == old(curr) && curr == old(next)
    {
      ReadStep(lines, line + 2, rest);
      row := row + 1;
      var c, n := curr, next;
      curr := n;
      prev := c;
      var k := NewlineFrom(rest, 0);
      if k < 0 {
        rest, next := [], [];
      } else {
        next := rest[..k];
        rest := rest[k + 1..];
      }
      line := line + 1;
      assert line - 1 == old(line) && line == old(line) + 1 && line + 1 == old(line) + 2;
      more := true;
    }

    /** `getPointsToCheck`: for each column from pos - 1 to pos + width
        inside the middle row, the points above (when that row is present),
        in and below (when present). */
    method GetPointsToCheck(pos: int, width: int) returns (points: seq<Point>)
      requires EngineParts.Aligned(prev, curr, next) && width >= -2
      ensures points == PointsBetween(prev, curr, next, row, pos - 1, pos + width + 1)
    {
      points := [];
      var columns := Utils.MakeRange(pos - 1, pos + width + 1);
      for k := 0 to |columns|
        invariant points == PointsBetween(prev, curr, next, row, pos - 1, pos - 1 + k)
      {
        var i := columns[k];
        assert i == pos - 1 + k;
        PointsBetweenStep(prev, curr, next, row, pos - 1, i);
        if 0 <= i < |curr| {
          points := AppendColumn(points, i);
        }
        assert i + 1 == pos - 1 + (k + 1);
      }
    }

    /** The body of `getPointsToCheck`'s loop for a column inside the middle
        row: the point above, when that row is present, the point in the
        middle row, and the point below, when present. */
    method AppendColumn(points: seq<Point>, i: int) returns (more: seq<Point>)
      requires EngineParts.Aligned(prev, curr, next) && 0 <= i < |curr|
      ensures more == AddColumn(points, prev, curr, next, row, i)
    {
      more := points;
      var point := Point(0 as char, 0, i);
      if |prev| > 0 {
        point := point.(ch := prev[i], x := row - 1);
        more := more + [point];
      }
      point := point.(ch := curr[i], x := row);
      more := more + [point];
      if |next| > 0 {
        point := point.(ch := next[i], x := row + 1);
        more := more + [point];
      }
    }

    /** `checkNumber`: the first symbol point around a number at column
        pos. */
    method CheckNumber(number: int, pos: int) returns (part: Part, ok: bool)
      requires EngineParts.Aligned(prev, curr, next) && number >= 1
      ensures ok <==> Check(prev, curr, next, row, pos, Utils.LengthOfInt(number)).Some?
      ensures part == if ok then Check(prev, curr, next, row, pos, Utils.LengthOfInt(number)).value else NoPart
    {
      var numberWidth := Utils.LengthOfInt(number);
      var points := GetPointsToCheck(pos, numberWidth);
      part, ok := CheckPoints(points);
    }

    /** `findRowNumbers`: the numbers of the middle row that have a symbol
        point around them, left to right, each number next to a gear filed
        under it; after a number the scan resumes at the end of its run.
        The map is Go's reference to `s.gears`, updated in place. */
    method FindRowNumbers() returns (numbers: seq<int>)
      requires EngineParts.Aligned(prev, curr, next) && Utils.NoLeadingZeros(curr)
      modifies this`gears
      ensures numbers == RowNumbers(Parts(prev, curr, next, row), curr, 0)
      ensures gears == RowGears(Parts(prev, curr, next, row), curr, 0, old(gears))
    {
      ghost var ps := Parts(prev, curr, next, row);
      ghost var kept := ScanNumbers(ps, curr, 0, []);
      ghost var filed := RowGears(ps, curr, 0, gears);
      var g := gears;
      numbers := [];
      var i := 0;
      while i < |curr|
        invariant 0 <= i <= |curr|
        invariant i < |curr| && Utils.IsDigit(curr[i]) ==> Utils.RunStart(curr, i)
        invariant ScanNumbers(ps, curr, i, numbers) == kept
        invariant RowGears(ps, curr, i, g) == filed
      {
        var number, ok := Utils.FindNumberInBytes(curr, i);
        ghost var e := i + 1;
        if ok {
          Utils.RunWidth(curr, i);
          var part, found := CheckNumber(number, i);
          ghost var before, beforeGears := numbers, g;
          if found {
            numbers := numbers + [number];
            if part.gear {
              g := g[part := Filed(g, part) + [number]];
            }
          }
          CheckedPart(prev, curr, next, row, ps, i, number, found, part);
          RunInteriorNoPart(prev, curr, next, row, i);
          e := i + Utils.LengthOfInt(number);
          ScanRun(ps, curr, i, e, number, found, part, before, numbers, beforeGears, g);
          i := i + Utils.LengthOfInt(number) - 1;
        } else {
          NoRunNoPart(prev, curr, next, row, i);
          ScanNoPart(ps, curr, i, numbers, g);
        }
        i := i + 1;
        assert i == e;
      }
      gears := g;
      ScanRowNumbers(ps, curr, 0, []);
      assert [] + RowNumbers(ps, curr, 0) == RowNumbers(ps, curr, 0);
    }
    /** `findPartNumbers`: the window moves down a line at a time, and the
        numbers of each row are appended, until the middle row is empty. */
    method FindPartNumbers() returns (partNumbers: seq<int>)
      requires Valid() && line == -1 && EngineParts.Schematic(lines)
      modifies this
      ensures partNumbers == PartNumbers(lines, 0)
      ensures gears == FileGears(lines, 0, old(gears))
    {
      ghost var all := ScanLines(lines, 0, []);
      ghost var filed := FileGears(lines, 0, gears);
      partNumbers := [];
      var more := AdvanceLines();
      while more && |curr| > 0
        invariant Valid() && line >= 0 && more
        invariant ScanLines(lines, line, partNumbers) == all
        invariant FileGears(lines, line, gears) == filed
        decreases |lines| - line
      {
        EngineParts.RowAligned(lines, line);
        assert Parts(prev, curr, next, row) == LineParts(lines, line);
        var rowNumbers := FindRowNumbers();
        partNumbers := partNumbers + rowNumbers;
        more := AdvanceLines();
      }
      ScanLinesNumbers(lines, 0, []);
      assert [] + PartNumbers(lines, 0) == PartNumbers(lines, 0);
    }
  }

  // ---------------------------------------------------------------------
  // The solver

  /** A gear's ratio: the product of its numbers when there are at least
      two of them, and nothing otherwise. */
  function Ratio(v: seq<int>): (r: int)
    ensures |v| <= 1 ==> r == 0
    ensures |v| == 2 ==> r == v[0] * v[1]
  {
    if |v| <= 1 then 0
    else
      assert |v| == 2 ==> v[..|v| - 1] == [v[0]] && Collections.Product([v[0]]) == v[0];
      Collections.Product(v)
  }

  /** Some element of a non-empty set. */
  ghost function Pick(s: set<Part>): Part
    requires s != {}
  {
    Collections.HasElement(s);
    var x :| x in s; x
  }

  /** The sum of the ratios of the gears in `keys`. */
  ghost function GearSum(m: map<Part, seq<int>>, keys: set<Part>): int
    requires keys <= m.Keys
    decreases keys
  {
    if keys == {} then 0
    else var k := Pick(keys); Ratio(m[k]) + GearSum(m, keys - {k})
  }

  /** The sum does not depend on the order the keys are visited in: any key
      can be taken first. Go's map range order is unspecified. */
  lemma {:induction false} GearSumRemove(m: map<Part, seq<int>>, keys: set<Part>, k: Part)
    requires keys <= m.Keys && k in keys
    ensures GearSum(m, keys) == Ratio(m[k]) + GearSum(m, keys - {k})
    decreases keys
  {
    var x := Pick(keys);
    if x != k {
      GearSumRemove(m, keys - {x}, k);
      GearSumRemove(m, keys - {k}, x);
      assert keys - {x} - {k} == keys - {k} - {x};
    }
  }

  /** `Day3`'s first loop: the sum of the part numbers. */
  method SumParts(numbers: seq<int>) returns (parts: int)
    ensures parts == Collections.Sum(numbers)
  {
    parts := 0;
    for k := 0 to |numbers|
      invariant parts == Collections.Sum(numbers[..k])
    {
      assert numbers[..k + 1][..k] == numbers[..k];
      parts := parts + numbers[k];
    }
    assert numbers[..|numbers|] == numbers;
  }

  /** `Day3`'s second loop: over the gears with two or more numbers, the sum
      of their products, in whatever order the map is visited. */
  method SumGearRatios(gears: map<Part, seq<int>>) returns (gearTotal: int)
    ensures gearTotal == GearSum(gears, gears.Keys)
  {
    gearTotal := 0;
    var keys := gears.Keys;
    while keys != {}
      invariant keys <= gears.Keys
      invariant gearTotal + GearSum(gears, keys) == GearSum(gears, gears.Keys)
      decreases keys
    {
      Collections.HasElement(keys);
      var part :| part in keys;
      var v := gears[part];
      if |v| > 1 {
        var gearAcc := 1;
        for j := 0 to |v|
          invariant gearAcc == Collections.Product(v[..j])
        {
          assert v[..j + 1][..j] == v[..j];
          gearAcc := gearAcc * v[j];
        }
        assert v[..|v|] == v;
        gearTotal := gearTotal + gearAcc;
      }
      GearSumRemove(gears, keys, part);
      keys := keys - {part};
    }
  }

  /** `Day3`: the sum of the part numbers and, over the gears with two or
      more numbers, the sum of their products. */
  method Day3(text: string) returns (parts: int, gearTotal: int)
    requires EngineParts.Schematic(Lines(text))
    ensures parts == Collections.Sum(PartNumbers(Lines(text), 0))
    ensures var g := FileGears(Lines(text), 0, map[]); gearTotal == GearSum(g, g.Keys)
  {
    var schematic := new EngineSchematic(text);
    var numbers := schematic.FindPartNumbers();
    parts := SumParts(numbers);
    gearTotal := SumGearRatios(schematic.gears);
  }
}
