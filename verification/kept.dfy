/** Keeping the rows that parse: the tab's scrape walks its table row by row
    and appends a record for each row that parses, skipping the others. */
module Keeping {
  import opened Entities

  /** The values of the Some entries, in order. */
  function Kept<T>(xs: seq<Option<T>>): (r: seq<T>)
    ensures |r| <= |xs|
    decreases |xs|
  {
    if |xs| == 0 then []
    else
      var init := Kept(xs[..|xs| - 1]);
      match xs[|xs| - 1]
      case Some(v) => init + [v]
      case None => init
  }

  /** The positions of the Some entries, in order. */
  function KeptPositions<T>(xs: seq<Option<T>>): seq<int>
    decreases |xs|
  {
    if |xs| == 0 then []
    else KeptPositions(xs[..|xs| - 1]) + (if xs[|xs| - 1].Some? then [|xs| - 1] else [])
  }

  /** r lists, in increasing positions pos, the values of exactly the Some entries of xs. */
  ghost predicate KeptAt<T>(xs: seq<Option<T>>, r: seq<T>, pos: seq<int>)
  {
    && |pos| == |r|
    && (forall k :: 0 <= k < |pos| ==> 0 <= pos[k] < |xs| && xs[pos[k]] == Some(r[k]))
    && (forall k, l :: 0 <= k < l < |pos| ==> pos[k] < pos[l])
    && (forall i :: 0 <= i < |xs| && xs[i].Some? ==> i in pos)
  }

  /** Kept keeps every Some entry, and nothing else, in its original order. */
  lemma {:induction false} KeptInOrder<T>(xs: seq<Option<T>>)
    ensures KeptAt(xs, Kept(xs), KeptPositions(xs))
    decreases |xs|
  {
    if |xs| > 0 {
      var n := |xs| - 1;
      var init := xs[..n];
      KeptInOrder(init);
      assert forall i :: 0 <= i < n ==> init[i] == xs[i];
      var pos0 := KeptPositions(init);
      assert forall k :: 0 <= k < |pos0| ==> pos0[k] < n;
    }
  }

  /** When every entry is Some, nothing is dropped. */
  lemma {:induction false} KeptAllSome<T>(xs: seq<Option<T>>, vs: seq<T>)
    requires |xs| == |vs| && forall i :: 0 <= i < |xs| ==> xs[i] == Some(vs[i])
    ensures Kept(xs) == vs
    decreases |xs|
  {
    if |xs| > 0 {
      KeptAllSome(xs[..|xs| - 1], vs[..|vs| - 1]);
      assert vs == vs[..|vs| - 1] + [vs[|vs| - 1]];
    }
  }

  /** Keeping distributes over concatenation: the kept values of a table
      split in two are the kept values of each part, in order. */
  lemma {:induction false} KeptAppend<T>(xs: seq<Option<T>>, ys: seq<Option<T>>)
    ensures Kept(xs + ys) == Kept(xs) + Kept(ys)
    decreases |ys|
  {
    if |ys| > 0 {
      var n := |ys| - 1;
      KeptAppend(xs, ys[..n]);
      assert (xs + ys)[..|xs + ys| - 1] == xs + ys[..n];
    } else {
      assert xs + ys == xs;
    }
  }
}
