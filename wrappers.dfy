/** Failure-compatible Option type used for the solvers' fatal paths
    (`log.Fatalf`, index panics): `None` stands for "the program stops here". */
module Wrappers {

  datatype Option<+T> = None | Some(value: T) {

    predicate IsFailure() {
      None?
    }

    function PropagateFailure<U>(): Option<U>
      requires None?
    {
      None
    }

    function Extract(): T
      requires Some?
    {
      value
    }
  }

  /** The values of a list of options, in order, or nothing as soon as one
      of them is nothing (a loop that stops at the first error). */
  function AllSome<T>(os: seq<Option<T>>): Option<seq<T>> {
    if |os| == 0 then Some([])
    else
      match AllSome(os[..|os| - 1])
      case None => None
      case Some(front) =>
        match os[|os| - 1]
        case None => None
        case Some(last) => Some(front + [last])
  }

  /** One more value extends the values of a prefix. */
  lemma AllSomeStep<T>(os: seq<Option<T>>, k: nat, front: seq<T>, x: T)
    requires k < |os| && AllSome(os[..k]) == Some(front) && os[k] == Some(x)
    ensures AllSome(os[..k + 1]) == Some(front + [x])
  {
    assert os[..k + 1][..k] == os[..k];
  }

  /** `AllSome` succeeds exactly when every option holds a value, and then
      lists those values. */
  lemma {:induction false} AllSomeValues<T>(os: seq<Option<T>>)
    ensures AllSome(os).Some? <==> forall i :: 0 <= i < |os| ==> os[i].Some?
    ensures AllSome(os).Some? ==>
      |AllSome(os).value| == |os| && forall i :: 0 <= i < |os| ==> AllSome(os).value[i] == os[i].value
  {
    if |os| > 0 {
      var front := os[..|os| - 1];
      AllSomeValues(front);
      assert forall i :: 0 <= i < |front| ==> front[i] == os[i];
    }
  }
}
