/** Mapping over a sequence, against permutation and sorting. */
module Mapping {
  import Sorting

  function Map<T, U>(xs: seq<T>, f: T -> U): (ys: seq<U>)
    ensures |ys| == |xs| && forall i :: 0 <= i < |xs| ==> ys[i] == f(xs[i])
  {
    seq(|xs|, i requires 0 <= i < |xs| => f(xs[i]))
  }

  lemma MapCons<T, U>(xs: seq<T>, f: T -> U)
    requires xs != []
    ensures Map(xs, f) == [f(xs[0])] + Map(xs[1..], f)
  {
  }

  lemma MapDropped<T, U>(xs: seq<T>, j: nat, f: T -> U)
    requires j < |xs|
    ensures multiset(Map(xs, f)) == multiset(Map(Sorting.Dropped(xs, j), f)) + multiset{f(xs[j])}
  {
    Sorting.DroppedCount(Map(xs, f), j);
    assert Sorting.Dropped(Map(xs, f), j) == Map(Sorting.Dropped(xs, j), f);
  }

  /** Rearranging before mapping rearranges after. */
  lemma {:induction false} MapPermutes<T, U>(xs: seq<T>, ys: seq<T>, f: T -> U)
    requires multiset(xs) == multiset(ys)
    ensures multiset(Map(xs, f)) == multiset(Map(ys, f))
  {
    if xs == [] {
      Sorting.NoneLeft(ys);
    } else {
      var j := Sorting.SameButHead(xs, ys);
      MapPermutes(xs[1..], Sorting.Dropped(ys, j), f);
      MapDropped(ys, j, f);
      MapDropped(xs, 0, f);
      assert Sorting.Dropped(xs, 0) == xs[1..];
    }
  }

  lemma {:induction false} MapInsert<T(!new), U>(x: T, xs: seq<T>, key: T -> string, f: T -> U, key': U -> string)
    requires forall t :: key'(f(t)) == key(t)
    ensures Map(Sorting.Insert(x, xs, key), f) == Sorting.Insert(f(x), Map(xs, f), key')
  {
    if xs != [] {
      MapInsert(x, xs[1..], key, f, key');
      assert Map(xs, f)[1..] == Map(xs[1..], f);
      assert key'(f(x)) == key(x) && key'(f(xs[0])) == key(xs[0]);
      assert Map([xs[0]] + Sorting.Insert(x, xs[1..], key), f) == [f(xs[0])] + Map(Sorting.Insert(x, xs[1..], key), f);
      assert Map([x] + xs, f) == [f(x)] + Map(xs, f);
    }
  }

  /** Sorting before a map that keeps the key is sorting after it. */
  lemma {:induction false} MapSort<T(!new), U>(xs: seq<T>, key: T -> string, f: T -> U, key': U -> string)
    requires forall t :: key'(f(t)) == key(t)
    ensures Map(Sorting.Sort(xs, key), f) == Sorting.Sort(Map(xs, f), key')
  {
    if xs == [] {
      assert Map(xs, f) == [];
    } else {
      MapSort(xs[1..], key, f, key');
      MapInsert(xs[0], Sorting.Sort(xs[1..], key), key, f, key');
      assert Map(xs, f)[1..] == Map(xs[1..], f);
    }
  }
}
