/** Facts about Dafny's sets and multisets that the models of Go maps use
    (a range loop over a map's keys picks some key of the set still to visit,
    and a count map is a multiset), and the sum and product of a slice as a
    range loop accumulates them. */
module Collections {
  /** A non-empty set has an element, so a loop can pick one. */
  lemma HasElement<T>(s: set<T>)
    requires s != {}
    ensures exists x :: x in s
  {
    if forall x :: x !in s {
      assert false;
    }
  }

  /** A non-empty set has an element, given as a witness (a loop over a
      set of integers picks it by `:|`). */
  lemma Element<T>(s: set<T>) returns (x: T)
    requires s != {}
    ensures x in s
  {
    HasElement(s);
    x :| x in s;
  }

  /** Setting the multiplicity of `k` to `n` changes the size of a multiset by
      the difference. */
  lemma {:induction false} CardUpdate<T>(m: multiset<T>, k: T, n: nat)
    ensures |m[k := n]| == |m| - m[k] + n
    decreases if n < m[k] then m[k] - n else n - m[k]
  {
    if n > m[k] {
      CardUpdate(m, k, n - 1);
      assert m[k := n] == m[k := n - 1] + multiset{k};
    } else if n < m[k] {
      CardUpdate(m, k, n + 1);
      assert m[k := n + 1] == m[k := n] + multiset{k};
    } else {
      assert m[k := n] == m;
    }
  }

  /** Concatenation is associative: a loop that appends a piece at a time
      builds the same sequence as one that appends the rest at once. */
  lemma AppendAssoc<T>(a: seq<T>, b: seq<T>, c: seq<T>)
    ensures (a + b) + c == a + (b + c)
  {
  }

  /** The sum of the elements, as a loop from the first to the last adds
      them up. */
  function Sum(xs: seq<int>): int {
    if |xs| == 0 then 0 else Sum(xs[..|xs| - 1]) + xs[|xs| - 1]
  }

  /** The sum also splits off the first element. */
  lemma {:induction false} SumFront(xs: seq<int>)
    requires |xs| > 0
    ensures Sum(xs) == xs[0] + Sum(xs[1..])
  {
    if |xs| > 1 {
      var front := xs[..|xs| - 1];
      SumFront(front);
      assert front[1..] == xs[1..][..|xs| - 2];
    }
  }

  /** The product of the elements, starting from 1. */
  function Product(xs: seq<int>): int {
    if |xs| == 0 then 1 else Product(xs[..|xs| - 1]) * xs[|xs| - 1]
  }
}
