/** What it means to filter a list: what stays keeps its order and comes as often as before. */
module Filters {
  function Filtered<T>(keep: T -> bool, xs: seq<T>): seq<T> {
    if xs == [] then []
    else if keep(xs[|xs| - 1]) then Filtered(keep, xs[..|xs| - 1]) + [xs[|xs| - 1]]
    else Filtered(keep, xs[..|xs| - 1])
  }

  lemma {:induction false} FilteredCount<T>(keep: T -> bool, xs: seq<T>, x: T)
    ensures multiset(Filtered(keep, xs))[x] == if keep(x) then multiset(xs)[x] else 0
  {
    if xs != [] {
      FilteredCount(keep, xs[..|xs| - 1], x);
      assert xs == xs[..|xs| - 1] + [xs[|xs| - 1]];
    }
  }

  /** The positions that the entries had, in rising order. */
  lemma {:induction false} FilteredOrder<T>(keep: T -> bool, xs: seq<T>) returns (at: seq<nat>)
    ensures |at| == |Filtered(keep, xs)|
    ensures forall k :: 0 <= k < |at| ==> at[k] < |xs| && xs[at[k]] == Filtered(keep, xs)[k]
    ensures forall j, k :: 0 <= j < k < |at| ==> at[j] < at[k]
  {
    at := [];
    if xs != [] {
      var n := |xs| - 1;
      at := FilteredOrder(keep, xs[..n]);
      if keep(xs[n]) {
        at := at + [n];
      }
    }
  }

  lemma {:induction false} FilteredConcat<T>(keep: T -> bool, a: seq<T>, b: seq<T>)
    ensures Filtered(keep, a + b) == Filtered(keep, a) + Filtered(keep, b)
    decreases |b|
  {
    if b == [] {
      assert a + b == a;
    } else {
      assert (a + b)[..|a + b| - 1] == a + b[..|b| - 1];
      FilteredConcat(keep, a, b[..|b| - 1]);
    }
  }

  lemma FilteredCons<T>(keep: T -> bool, x: T, rest: seq<T>)
    ensures Filtered(keep, [x] + rest) == (if keep(x) then [x] else []) + Filtered(keep, rest)
  {
    FilteredConcat(keep, [x], rest);
    assert [x][..0] == [];
  }
}
