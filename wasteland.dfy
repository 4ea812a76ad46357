/** solutions/day8.go: Haunted Wasteland. The first line is a ring of left
    and right instructions, the other lines map a node to its left and right
    neighbours, and the walk from AAA follows the instructions round the ring
    until it reaches ZZZ. */
module Wasteland {
  import opened Wrappers
  import GoStrings

  // ---------------------------------------------------------------------
  // The instruction ring

  /** The switch of `Insert`: `R` is 1, any other byte keeps the zero value
      (so `L` is 0 and so is every byte that is no instruction). */
  function DirectionOf(b: char): (d: int)
    ensures d == 1 <==> b == 'R'
    ensures d == 0 || d == 1
  {
    if b == 'R' then 1 else 0
  }

  /** `dRingNode`: the direction, the byte it came from and the next node. */
  class RingNode {
    const direction: int
    const literal: string
    var next: RingNode?

    constructor (direction: int, literal: string)
      ensures this.direction == direction && this.literal == literal && next == null
    {
      this.direction, this.literal := direction, literal;
      next := null;
    }
  }

  /** No element occurs twice. */
  ghost predicate Distinct<T>(s: seq<T>) {
    forall i, j :: 0 <= i < j < |s| ==> s[i] != s[j]
  }

  /** `nodes` form a ring: each node's `next` is the following one, the tail
      points back to the head, each node once; no nodes, no head and tail. */
  ghost predicate Ring(head: RingNode?, tail: RingNode?, nodes: seq<RingNode>)
    reads nodes
  {
    (if |nodes| == 0 then head == null && tail == null
     else head == nodes[0] && tail == nodes[|nodes| - 1] && nodes[|nodes| - 1].next == nodes[0]) &&
    (forall i :: 0 <= i < |nodes| - 1 ==> nodes[i].next == nodes[i + 1]) &&
    Distinct(nodes)
  }

  /** Following `next` from node i of a ring leads to node i + 1, and from
      the last node back to the first. */
  lemma RingSuccessor(head: RingNode?, tail: RingNode?, nodes: seq<RingNode>, i: nat)
    requires Ring(head, tail, nodes) && i < |nodes|
    ensures nodes[i].next == nodes[(i + 1) % |nodes|]
  {
    if i + 1 == |nodes| {
      assert (i + 1) % |nodes| == 0;
    } else {
      assert (i + 1) % |nodes| == i + 1;
    }
  }

  /** The directions of the nodes, in ring order from the head. */
  function DirectionsOf(nodes: seq<RingNode>): (ds: seq<int>)
    ensures |ds| == |nodes| && forall i :: 0 <= i < |nodes| ==> ds[i] == nodes[i].direction
  {
    seq(|nodes|, i requires 0 <= i < |nodes| => nodes[i].direction)
  }

  /** The bytes of the nodes, in ring order from the head. */
  function LiteralsOf(nodes: seq<RingNode>): (ls: seq<string>)
    ensures |ls| == |nodes| && forall i :: 0 <= i < |nodes| ==> ls[i] == nodes[i].literal
  {
    seq(|nodes|, i requires 0 <= i < |nodes| => nodes[i].literal)
  }

  /** `DirectionRing`: head, tail and length of a circular list. */
  class DirectionRing {
    var head: RingNode?
    var tail: RingNode?
    var length: int
    /** The nodes from the head along `next`, each once. */
    ghost var nodes: seq<RingNode>
    ghost var Repr: set<object>

    ghost predicate Valid()
      reads this, Repr
    {
      this in Repr && (forall i :: 0 <= i < |nodes| ==> nodes[i] in Repr) &&
      Ring(head, tail, nodes) && length == |nodes|
    }

    /** The inserted directions, in insertion order. */
    ghost function Directions(): seq<int>
      reads this
    {
      DirectionsOf(nodes)
    }

    ghost function Literals(): seq<string>
      reads this
    {
      LiteralsOf(nodes)
    }

    constructor ()
      ensures Valid() && fresh(Repr) && nodes == [] && length == 0
    {
      head, tail, length := null, null, 0;
      nodes, Repr := [], {this};
    }

    /** `Insert`: a new node for the byte after the tail, pointing back to
        the head; the first node points to itself. */
    method Insert(b: char)
      requires Valid()
      modifies Repr
      ensures Valid() && fresh(Repr - old(Repr))
      ensures length == old(length) + 1
      ensures nodes[..old(|nodes|)] == old(nodes)
      ensures Directions() == old(Directions()) + [DirectionOf(b)]
      ensures Literals() == old(Literals()) + [[b]]
      ensures old(length) == 0 ==> head.next == head
    {
      var newNode := new RingNode(DirectionOf(b), [b]);
      length := length + 1;
      if head == null {
        head := newNode;
        head.next := newNode;
        tail := newNode;
        tail.next := head;
        nodes, Repr := [newNode], Repr + {newNode};
        return;
      }
      LinkTail(newNode);
    }

    /** The second half of `Insert`: the old tail points to the new node,
        which becomes the tail and points to the head. */
    method LinkTail(newNode: RingNode)
      requires Ring(head, tail, nodes) && |nodes| > 0 && newNode !in Repr
      requires this in Repr && forall i :: 0 <= i < |nodes| ==> nodes[i] in Repr
      modifies this, tail, newNode
      ensures nodes == old(nodes) + [newNode] && Repr == old(Repr) + {newNode}
      ensures head == old(head) && length == old(length)
      ensures Ring(head, tail, nodes)
      ensures this in Repr && forall i :: 0 <= i < |nodes| ==> nodes[i] in Repr
    {
      ghost var before := nodes;
      assert forall i :: 0 <= i < |before| - 1 ==> before[i] != tail;
      assert newNode !in before;
      if tail != null {
        tail.next := newNode;
      }
      tail := newNode;
      tail.next := head;
      nodes, Repr := nodes + [newNode], Repr + {newNode};
      forall i | 0 <= i < |nodes| - 1
        ensures nodes[i].next == nodes[i + 1]
      {
        if i < |before| - 1 {
          assert nodes[i] == before[i] && nodes[i + 1] == before[i + 1];
        }
      }
    }
  }

  /** The directions of the bytes of a line, in order. */
  function LineDirections(line: string): (ds: seq<int>)
    ensures |ds| == |line| && forall i :: 0 <= i < |line| ==> ds[i] == DirectionOf(line[i])
  {
    if |line| == 0 then [] else LineDirections(line[..|line| - 1]) + [DirectionOf(line[|line| - 1])]
  }

  /** The bytes of a line, each as a one-byte string. */
  function LineLiterals(line: string): (ls: seq<string>)
    ensures |ls| == |line| && forall i :: 0 <= i < |line| ==> ls[i] == [line[i]]
  {
    if |line| == 0 then [] else LineLiterals(line[..|line| - 1]) + [[line[|line| - 1]]]
  }

  /** `parseRing`: the bytes of the line inserted one by one. */
  method ParseRing(line: string) returns (ring: DirectionRing)
    ensures ring.Valid() && fresh(ring.Repr)
    ensures ring.Directions() == LineDirections(line)
    ensures ring.Literals() == LineLiterals(line)
    ensures ring.length == |line|
  {
    ring := new DirectionRing();
    for i := 0 to |line|
      invariant ring.Valid() && fresh(ring.Repr) && ring.length == i
      invariant ring.Directions() == LineDirections(line[..i])
      invariant ring.Literals() == LineLiterals(line[..i])
    {
      ring.Insert(line[i]);
      assert line[..i + 1][..i] == line[..i];
    }
    assert line[..|line|] == line;
  }

  // ---------------------------------------------------------------------
  // The walk

  /** How `TraverseDesert` ends: at the end node after some steps, on a
      fatal step, or (in this model only) when the step budget runs out. */
  datatype Outcome = Reached(steps: nat) | Fatal | OutOfFuel

  /** The node the k-th step (from 0) leads to from `curr`: the choice the
      k-th instruction round the ring picks. A node without a mapping, an
      empty ring or a choice past the end of the list is fatal. */
  function Step(dirs: seq<int>, m: map<string, seq<string>>, curr: string, k: nat): Option<string> {
    if curr !in m || |dirs| == 0 then None
    else
      var d := dirs[k % |dirs|];
      if 0 <= d < |m[curr]| then Some(m[curr][d]) else None
  }

  /** The node after k steps from `start`, ignoring the end node. */
  function Position(dirs: seq<int>, m: map<string, seq<string>>, start: string, k: nat): Option<string> {
    if k == 0 then Some(start)
    else
      match Position(dirs, m, start, k - 1)
      case None => None
      case Some(p) => Step(dirs, m, p, k - 1)
  }

  /** The loop of `TraverseDesert` from `curr` after k steps, with at most
      `fuel` more steps. */
  function WalkFrom(dirs: seq<int>, m: map<string, seq<string>>, curr: string, end: string, k: nat, fuel: nat): Outcome
    decreases fuel
  {
    if curr == end then Reached(k)
    else if fuel == 0 then OutOfFuel
    else
      match Step(dirs, m, curr, k)
      case None => Fatal
      case Some(next) => WalkFrom(dirs, m, next, end, k + 1, fuel - 1)
  }

  function Walk(dirs: seq<int>, m: map<string, seq<string>>, start: string, end: string, fuel: nat): Outcome {
    WalkFrom(dirs, m, start, end, 0, fuel)
  }

  /** Walking on from step k to step j, past no end node, lands where the
      positions say with that much less fuel. */
  lemma {:induction false} WalkSkip(dirs: seq<int>, m: map<string, seq<string>>, start: string, end: string, k: nat, j: nat, fuel: nat)
    requires k <= j <= k + fuel && Position(dirs, m, start, j).Some?
    requires forall i :: k <= i < j ==> Position(dirs, m, start, i) != Some(end)
    requires Position(dirs, m, start, k).Some?
    ensures WalkFrom(dirs, m, Position(dirs, m, start, k).value, end, k, fuel) ==
            WalkFrom(dirs, m, Position(dirs, m, start, j).value, end, j, fuel - (j - k))
    decreases j - k
  {
    if k < j {
      PositionSome(dirs, m, start, k + 1, j);
      assert Position(dirs, m, start, k) != Some(end);
      WalkSkip(dirs, m, start, end, k + 1, j, fuel - 1);
    }
  }

  /** A walk with a position at step j has positions at every earlier step. */
  lemma {:induction false} PositionSome(dirs: seq<int>, m: map<string, seq<string>>, start: string, i: nat, j: nat)
    requires i <= j && Position(dirs, m, start, j).Some?
    ensures Position(dirs, m, start, i).Some?
    decreases j - i
  {
    if i < j {
      PositionSome(dirs, m, start, i + 1, j);
    }
  }

  /** A walk that reaches the end node took at least k steps, has reached
      it by its last step and not before. */
  lemma {:induction false} WalkReachedFrom(dirs: seq<int>, m: map<string, seq<string>>, start: string, end: string, k: nat, fuel: nat, n: nat)
    requires Position(dirs, m, start, k).Some?
    requires WalkFrom(dirs, m, Position(dirs, m, start, k).value, end, k, fuel) == Reached(n)
    ensures k <= n <= k + fuel && Position(dirs, m, start, n) == Some(end)
    ensures forall i :: k <= i < n ==> Position(dirs, m, start, i) != Some(end)
    decreases fuel
  {
    var curr := Position(dirs, m, start, k).value;
    if curr != end {
      WalkReachedFrom(dirs, m, start, end, k + 1, fuel - 1, n);
    }
  }

  /** A walk that is reached within the budget reaches the end node at the
      position of its step count. */
  lemma {:induction false} WalkReachedEnd(dirs: seq<int>, m: map<string, seq<string>>, start: string, end: string, fuel: nat, n: nat)
    requires n <= fuel && Position(dirs, m, start, n) == Some(end)
    requires forall i :: 0 <= i < n ==> Position(dirs, m, start, i) != Some(end)
    ensures Walk(dirs, m, start, end, fuel) == Reached(n)
  {
    assert Position(dirs, m, start, 0) == Some(start);
    WalkSkip(dirs, m, start, end, 0, n, fuel);
    assert WalkFrom(dirs, m, end, end, n, fuel - n) == Reached(n);
  }

  /** The n-th position is the end node, no earlier one is, and n is within
      the step budget. */
  ghost predicate FirstReach(dirs: seq<int>, m: map<string, seq<string>>, start: string, end: string, fuel: nat, n: nat) {
    n <= fuel && Position(dirs, m, start, n) == Some(end) &&
    forall i :: 0 <= i < n ==> Position(dirs, m, start, i) != Some(end)
  }

  /** The walk returns n exactly when n is the first reach of the end. */
  lemma {:induction false} WalkReached(dirs: seq<int>, m: map<string, seq<string>>, start: string, end: string, fuel: nat, n: nat)
    ensures Walk(dirs, m, start, end, fuel) == Reached(n) <==> FirstReach(dirs, m, start, end, fuel, n)
  {
    if Walk(dirs, m, start, end, fuel) == Reached(n) {
      assert Position(dirs, m, start, 0) == Some(start);
      WalkReachedFrom(dirs, m, start, end, 0, fuel, n);
    } else if FirstReach(dirs, m, start, end, fuel, n) {
      WalkReachedEnd(dirs, m, start, end, fuel, n);
    }
  }

  /** A walk that comes, before using up its budget and without passing the
      end node, to a node that has no mapping, is fatal. */
  lemma {:induction false} WalkMissingNode(dirs: seq<int>, m: map<string, seq<string>>, start: string, end: string, fuel: nat, j: nat)
    requires j < fuel && Position(dirs, m, start, j).Some?
    requires Position(dirs, m, start, j).value !in m && Position(dirs, m, start, j) != Some(end)
    requires forall i :: 0 <= i < j ==> Position(dirs, m, start, i) != Some(end)
    ensures Walk(dirs, m, start, end, fuel) == Fatal
  {
    WalkSkip(dirs, m, start, end, 0, j, fuel);
  }

  lemma {:induction false} MulMono(d: int, n: int)
    requires d >= 1 && n > 0
    ensures d * n >= n
  {
    if d > 1 {
      MulMono(d - 1, n);
      assert d * n == (d - 1) * n + n;
    }
  }

  /** The remainder of q n + r is r when 0 <= r < n. */
  lemma DivModUnique(x: int, n: int, q: int, r: int)
    requires n > 0 && 0 <= r < n && x == q * n + r
    ensures x % n == r
  {
    var q0, r0 := x / n, x % n;
    assert x == q0 * n + r0;
    var d := q - q0;
    assert d * n == r0 - r by {
      assert q * n - q0 * n == d * n;
    }
    if d >= 1 {
      MulMono(d, n);
    } else if d <= -1 {
      MulMono(-d, n);
    }
  }

  /** One more step moves one place round the ring. */
  lemma ModNext(a: nat, n: nat)
    requires n > 0
    ensures (a % n + 1) % n == (a + 1) % n
  {
    var q, r := a / n, a % n;
    assert a == q * n + r;
    if r + 1 == n {
      assert a + 1 == (q + 1) * n + 0;
      DivModUnique(a + 1, n, q + 1, 0);
      DivModUnique(r + 1, n, 1, 0);
    } else {
      DivModUnique(a + 1, n, q, r + 1);
      DivModUnique(r + 1, n, 0, r + 1);
    }
  }

  /** `Desert`: the ring of instructions and the node map. */
  datatype Desert = Desert(instructions: DirectionRing, directions: map<string, seq<string>>)

  /** `TraverseDesert`: from `start`, take the choice of the next instruction
      round the ring until the current node is `end`, counting the steps.
      The source has no step bound; here the walk gives up after `fuel`
      steps. */
  method TraverseDesert(desert: Desert, start: string, end: string, fuel: nat) returns (r: Outcome)
    requires desert.instructions.Valid()
    ensures r == Walk(desert.instructions.Directions(), desert.directions, start, end, fuel)
  {
    var ring, m := desert.instructions, desert.directions;
    ghost var dirs, nodes := ring.Directions(), ring.nodes;
    var count := 0;
    var curr := start;
    var nextDir := ring.head;
    while curr != end
      invariant count <= fuel
      invariant WalkFrom(dirs, m, curr, end, count, fuel - count) == Walk(dirs, m, start, end, fuel)
      invariant |nodes| == 0 ==> nextDir == null
      invariant |nodes| > 0 ==> nextDir == nodes[count % |nodes|]
      decreases fuel - count
    {
      if count == fuel {
        return OutOfFuel;
      }
      if curr !in m {
        return Fatal;
      }
      var choices := m[curr];
      if nextDir == null || nextDir.direction < 0 || nextDir.direction >= |choices| {
        return Fatal;
      }
      curr := choices[nextDir.direction];
      RingSuccessor(ring.head, ring.tail, nodes, count % |nodes|);
      ModNext(count, |nodes|);
      nextDir := nextDir.next;
      count := count + 1;
    }
    return Reached(count);
  }

  // ---------------------------------------------------------------------
  // Parsing

  /** The characters the node map trims round its choices. */
  const Parens: set<char> := {'(', ')'}

  /** One line of the node map: the name before ` = ` and the choices
      between the parentheses, split at `, `; a line that is not two parts
      round ` = ` is fatal. */
  function Entry(line: string): Option<(string, seq<string>)> {
    var split := GoStrings.Split(line, " = ");
    if |split| != 2 then None
    else Some((split[0], GoStrings.Split(GoStrings.Trim(split[1], Parens), ", ")))
  }

  /** `parseDirections`: the entries of the lines in order, a later entry
      for a node replacing an earlier one; blank lines are skipped. */
  function MapOf(lines: seq<string>): Option<map<string, seq<string>>> {
    if |lines| == 0 then Some(map[])
    else
      var m :- MapOf(lines[..|lines| - 1]);
      var line := lines[|lines| - 1];
      if line == "" then Some(m)
      else
        var entry :- Entry(line);
        Some(m[entry.0 := entry.1])
  }

  /** A node name of the puzzle: no separator character in it. */
  predicate NodeName(s: string) {
    |s| > 0 && forall k :: 0 <= k < |s| ==> s[k] != ' ' && s[k] != ',' && s[k] != '=' && s[k] != '(' && s[k] != ')'
  }

  /** A line `X = (A, B)` gives X the choices [A, B]. */
  lemma EntryWellFormed(x: string, a: string, b: string)
    requires NodeName(x) && NodeName(a) && NodeName(b)
    ensures Entry(x + " = (" + a + ", " + b + ")") == Some((x, [a, b]))
  {
    var inner := a + ", " + b;
    var rhs := ['('] + inner + [')'];
    assert x + " = (" + a + ", " + b + ")" == x + " = " + rhs;
    SplitEntry(x, rhs, a, b);
    TrimChoices(a, b);
    SplitChoices(a, b);
  }

  /** The name and the parenthesised choices split apart at ` = `. */
  lemma SplitEntry(x: string, rhs: string, a: string, b: string)
    requires NodeName(x) && NodeName(a) && NodeName(b)
    requires rhs == ['('] + (a + ", " + b) + [')']
    ensures GoStrings.Split(x + " = " + rhs, " = ") == [x, rhs]
  {
    GoStrings.SplitAfterClean(x, " = ", rhs);
    forall k | 0 <= k < |rhs|
      ensures rhs[k] != '='
    {
      if 0 < k <= |a| {
        assert rhs[k] == a[k - 1];
      } else if |a| + 2 < k < |rhs| - 1 {
        assert rhs[k] == b[k - |a| - 3];
      }
    }
    SplitWithout(rhs, " = ", 1);
  }

  /** Trimming the parentheses leaves the choices. */
  lemma TrimChoices(a: string, b: string)
    requires NodeName(a) && NodeName(b)
    ensures GoStrings.Trim(['('] + (a + ", " + b) + [')'], Parens) == a + ", " + b
  {
    var inner := a + ", " + b;
    assert inner[0] == a[0] && inner[|inner| - 1] == b[|b| - 1];
    GoStrings.TrimWrapped('(', inner, ')', Parens);
  }

  /** The choices split apart at `, `. */
  lemma SplitChoices(a: string, b: string)
    requires NodeName(a) && NodeName(b)
    ensures GoStrings.Split(a + ", " + b, ", ") == [a, b]
  {
    GoStrings.SplitAfterClean(a, ", ", b);
    SplitWithout(b, ", ", 0);
  }

  /** Text without one of the separator's characters is not split. */
  lemma SplitWithout(s: string, sep: string, j: nat)
    requires j < |sep| && forall k :: 0 <= k < |s| ==> s[k] != sep[j]
    ensures GoStrings.Split(s, sep) == [s]
  {
    forall i | 0 <= i
      ensures !GoStrings.OccursAt(s, sep, i)
    {
      if i + |sep| <= |s| {
        assert s[i..i + |sep|][j] == s[i + j];
      }
    }
  }

  /** One fatal line makes the whole map fail. */
  lemma {:induction false} MapOfFails(lines: seq<string>, i: nat)
    requires i < |lines| && lines[i] != "" && Entry(lines[i]).None?
    ensures MapOf(lines).None?
  {
    if i < |lines| - 1 {
      var front := lines[..|lines| - 1];
      assert front[i] == lines[i];
      MapOfFails(front, i);
    }
  }

  /** `parseDirections` over the lines after the ring. */
  method ParseDirections(lines: seq<string>) returns (m: map<string, seq<string>>, ok: bool)
    ensures ok <==> MapOf(lines).Some?
    ensures ok ==> m == MapOf(lines).value
  {
    m := map[];
    for l := 0 to |lines|
      invariant MapOf(lines[..l]) == Some(m)
    {
      assert lines[..l + 1][..l] == lines[..l];
      var line := lines[l];
      if line == "" {
        continue;
      }
      var split := GoStrings.Split(line, " = ");
      if |split| != 2 {
        MapOfFails(lines, l);
        return m, false;
      }
      var directions := GoStrings.Trim(split[1], Parens);
      m := m[split[0] := GoStrings.Split(directions, ", ")];
    }
    assert lines[..|lines|] == lines;
    ok := true;
  }

  /** `Parse`: the first line is the ring (an empty one when there are no
      lines), the rest the node map. */
  method Parse(lines: seq<string>) returns (ring: DirectionRing, m: map<string, seq<string>>, ok: bool)
    ensures ring.Valid() && fresh(ring.Repr)
    ensures ring.Directions() == if |lines| == 0 then [] else LineDirections(lines[0])
    ensures ok <==> |lines| == 0 || MapOf(lines[1..]).Some?
    ensures ok ==> m == if |lines| == 0 then map[] else MapOf(lines[1..]).value
  {
    var ringLine := if |lines| == 0 then "" else lines[0];
    ring := ParseRing(ringLine);
    if |lines| == 0 {
      return ring, map[], true;
    }
    m, ok := ParseDirections(lines[1..]);
  }

  /** `Day8`: the steps from AAA to ZZZ. */
  method Day8(lines: seq<string>, fuel: nat) returns (r: Outcome, ok: bool)
    ensures ok <==> |lines| == 0 || MapOf(lines[1..]).Some?
    ensures ok && |lines| > 0 ==>
      r == Walk(LineDirections(lines[0]), MapOf(lines[1..]).value, "AAA", "ZZZ", fuel)
  {
    var ring, m;
    ring, m, ok := Parse(lines);
    if !ok {
      return Fatal, false;
    }
    r := TraverseDesert(Desert(ring, m), "AAA", "ZZZ", fuel);
  }
}
