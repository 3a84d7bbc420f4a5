/** Option and Result, the shapes of Rust's `Option<T>` and `Result<T, E>`,
    and the all-or-nothing traversal that a `for` loop with `?` inside it
    performs over a slice. */
module Wrappers {

  datatype Option<+T> = None | Some(value: T)

  datatype Result<+T, +E> = Success(value: T) | Failure(error: E)

  /** Applies `f` to every element in order; the first `None` aborts the
      whole traversal, otherwise the results are collected in order. */
  function AllOrNothing<A, B>(xs: seq<A>, f: A -> Option<B>): Option<seq<B>>
  {
    if xs == [] then Some([])
    else match f(xs[0])
      case None => None
      case Some(y) =>
        match AllOrNothing(xs[1..], f)
        case None => None
        case Some(ys) => Some([y] + ys)
  }

  /** The traversal succeeds exactly when every element succeeds, and then
      it keeps the length and the order of its input. */
  lemma {:induction false} AllOrNothingSpec<A, B>(xs: seq<A>, f: A -> Option<B>)
    ensures AllOrNothing(xs, f).Some? <==> forall i :: 0 <= i < |xs| ==> f(xs[i]).Some?
    ensures AllOrNothing(xs, f).Some? ==>
      |AllOrNothing(xs, f).value| == |xs| &&
      forall i :: 0 <= i < |xs| ==> f(xs[i]) == Some(AllOrNothing(xs, f).value[i])
  {
    if xs != [] {
      AllOrNothingSpec(xs[1..], f);
      assert forall i :: 1 <= i < |xs| ==> xs[i] == xs[1..][i - 1];
      if f(xs[0]).Some? && AllOrNothing(xs[1..], f).Some? {
        var ys := AllOrNothing(xs, f).value;
        assert ys == [f(xs[0]).value] + AllOrNothing(xs[1..], f).value;
        forall i | 0 <= i < |xs| ensures f(xs[i]) == Some(ys[i]) {
          if i > 0 { assert ys[i] == AllOrNothing(xs[1..], f).value[i - 1]; }
        }
      } else if f(xs[0]).Some? {
        var j :| 0 <= j < |xs[1..]| && f(xs[1..][j]).None?;
        assert f(xs[j + 1]).None?;
      }
    }
  }

  /** Where every element succeeds, the collected results are determined
      element by element: the traversal of a list of `Some`s gives the list
      of their values. */
  lemma AllOrNothingOfValues<A, B>(xs: seq<A>, f: A -> Option<B>, ys: seq<B>)
    requires |ys| == |xs|
    requires forall i :: 0 <= i < |xs| ==> f(xs[i]) == Some(ys[i])
    ensures AllOrNothing(xs, f) == Some(ys)
  {
    AllOrNothingSpec(xs, f);
    var zs := AllOrNothing(xs, f).value;
    assert forall i :: 0 <= i < |xs| ==> zs[i] == ys[i];
    assert zs == ys;
  }
}
