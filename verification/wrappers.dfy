/** Optional values and Swift's `compactMap`, shared by every other module. */
module Wrappers {

  /** Swift's `T?`. */
  datatype Option<+T> = None | Some(value: T)

  /** Swift's `compactMap`: apply `f` to every element, keep the `Some` results in order. */
  function CompactMap<A, B>(xs: seq<A>, f: A -> Option<B>): (r: seq<B>)
    ensures |r| <= |xs|
  {
    if xs == [] then []
    else
      var rest := CompactMap(xs[1..], f);
      match f(xs[0])
      case Some(y) => [y] + rest
      case None => rest
  }

  /** Every item kept is the image of some input. */
  lemma {:induction false} CompactMapFrom<A, B>(xs: seq<A>, f: A -> Option<B>, i: nat)
    requires i < |CompactMap(xs, f)|
    ensures exists k :: 0 <= k < |xs| && f(xs[k]) == Some(CompactMap(xs, f)[i])
    decreases |xs|
  {
    var rest := CompactMap(xs[1..], f);
    if f(xs[0]).Some? && i == 0 {
      assert f(xs[0]) == Some(CompactMap(xs, f)[i]);
    } else {
      var j := if f(xs[0]).Some? then i - 1 else i;
      CompactMapFrom(xs[1..], f, j);
      var k :| 0 <= k < |xs[1..]| && f(xs[1..][k]) == Some(rest[j]);
      assert f(xs[k + 1]) == Some(CompactMap(xs, f)[i]);
    }
  }

  lemma {:induction false} CompactMapAppend<A, B>(xs: seq<A>, ys: seq<A>, f: A -> Option<B>)
    ensures CompactMap(xs + ys, f) == CompactMap(xs, f) + CompactMap(ys, f)
    decreases |xs|
  {
    if xs == [] {
      assert xs + ys == ys;
    } else {
      assert (xs + ys)[1..] == xs[1..] + ys;
      CompactMapAppend(xs[1..], ys, f);
    }
  }

  /** When every element maps to `Some`, `CompactMap` is a plain map. */
  lemma {:induction false} CompactMapAllSome<A, B>(xs: seq<A>, f: A -> Option<B>)
    requires forall i :: 0 <= i < |xs| ==> f(xs[i]).Some?
    ensures |CompactMap(xs, f)| == |xs|
    ensures forall i :: 0 <= i < |xs| ==> CompactMap(xs, f)[i] == f(xs[i]).value
    decreases |xs|
  {
    if xs != [] {
      CompactMapAllSome(xs[1..], f);
    }
  }

  /** When no element maps to `Some`, `CompactMap` is empty. */
  lemma {:induction false} CompactMapAllNone<A, B>(xs: seq<A>, f: A -> Option<B>)
    requires forall i :: 0 <= i < |xs| ==> f(xs[i]).None?
    ensures CompactMap(xs, f) == []
    decreases |xs|
  {
    if xs != [] {
      CompactMapAllNone(xs[1..], f);
    }
  }
}
