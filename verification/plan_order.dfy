/** Ordering of plans by data limit. The optimizer sorts its plans with a
    stable sort keyed on `data_limit`, so plans with equal limits keep the
    order the caller gave them. */
module PlanOrder {
  import opened Entities

  predicate SortedByDataLimit(ps: seq<Plan>)
  {
    forall i, j :: 0 <= i < j < |ps| ==> ps[i].dataLimit <= ps[j].dataLimit
  }

  /** The plans whose data limit is exactly d, in their order in ps. A sort is
      stable when it leaves every such subsequence as it was. */
  function WithLimit(ps: seq<Plan>, d: real): seq<Plan>
    decreases |ps|
  {
    if |ps| == 0 then []
    else (if ps[0].dataLimit == d then [ps[0]] else []) + WithLimit(ps[1..], d)
  }

  /** Places p in front of the first plan whose limit is at least p's. */
  function Insert(p: Plan, ps: seq<Plan>): seq<Plan>
    decreases |ps|
  {
    if |ps| == 0 || p.dataLimit <= ps[0].dataLimit then [p] + ps
    else [ps[0]] + Insert(p, ps[1..])
  }

  /** The plans in ascending data-limit order: a stable permutation of the input. */
  function SortByDataLimit(ps: seq<Plan>): (r: seq<Plan>)
    ensures SortedByDataLimit(r)
    ensures |r| == |ps| && multiset(r) == multiset(ps)
    ensures multiset(Ids(r, PlanKey)) == multiset(Ids(ps, PlanKey))
    ensures forall d :: WithLimit(r, d) == WithLimit(ps, d)
    decreases |ps|
  {
    if |ps| == 0 then []
    else
      var rest := SortByDataLimit(ps[1..]);
      SortStep(ps, rest);
      Insert(ps[0], rest)
  }

  /** Inserting the head into a stably sorted tail stably sorts the whole. */
  lemma SortStep(ps: seq<Plan>, rest: seq<Plan>)
    requires |ps| > 0
    requires SortedByDataLimit(rest)
    requires multiset(rest) == multiset(ps[1..])
    requires multiset(Ids(rest, PlanKey)) == multiset(Ids(ps[1..], PlanKey))
    requires forall d :: WithLimit(rest, d) == WithLimit(ps[1..], d)
    ensures SortedByDataLimit(Insert(ps[0], rest))
    ensures |Insert(ps[0], rest)| == |ps| && multiset(Insert(ps[0], rest)) == multiset(ps)
    ensures multiset(Ids(Insert(ps[0], rest), PlanKey)) == multiset(Ids(ps, PlanKey))
    ensures forall d :: WithLimit(Insert(ps[0], rest), d) == WithLimit(ps, d)
  {
    assert ps == [ps[0]] + ps[1..];
    assert |rest| == |multiset(rest)| == |ps| - 1;
    InsertSorted(ps[0], rest);
    InsertMultiset(ps[0], rest);
    InsertIds(ps[0], rest);
    assert Ids(ps, PlanKey) == [ps[0].id] + Ids(ps[1..], PlanKey);
    forall d ensures WithLimit(Insert(ps[0], rest), d) == WithLimit(ps, d) {
      InsertStable(ps[0], rest, d);
      WithLimitAppend([ps[0]], ps[1..], d);
    }
  }

  lemma {:induction false} InsertSorted(p: Plan, ps: seq<Plan>)
    requires SortedByDataLimit(ps)
    ensures SortedByDataLimit(Insert(p, ps))
    ensures |Insert(p, ps)| == |ps| + 1
    ensures forall i :: 0 <= i < |Insert(p, ps)| ==>
      Insert(p, ps)[i] == p || Insert(p, ps)[i] in ps
    decreases |ps|
  {
    if |ps| > 0 && p.dataLimit > ps[0].dataLimit {
      InsertSorted(p, ps[1..]);
      var r := Insert(p, ps);
      assert r == [ps[0]] + Insert(p, ps[1..]);
      forall i | 1 <= i < |r| ensures ps[0].dataLimit <= r[i].dataLimit {
        assert r[i] == Insert(p, ps[1..])[i - 1];
        if r[i] != p {
          assert r[i] in ps[1..];
        }
      }
    }
  }

  lemma {:induction false} InsertMultiset(p: Plan, ps: seq<Plan>)
    ensures multiset(Insert(p, ps)) == multiset{p} + multiset(ps)
    decreases |ps|
  {
    if |ps| > 0 && p.dataLimit > ps[0].dataLimit {
      InsertMultiset(p, ps[1..]);
      assert ps == [ps[0]] + ps[1..];
    }
  }

  lemma {:induction false} InsertIds(p: Plan, ps: seq<Plan>)
    ensures multiset(Ids(Insert(p, ps), PlanKey)) == multiset{p.id} + multiset(Ids(ps, PlanKey))
    decreases |ps|
  {
    if |ps| == 0 || p.dataLimit <= ps[0].dataLimit {
      assert Ids([p] + ps, PlanKey) == [p.id] + Ids(ps, PlanKey);
    } else {
      InsertIds(p, ps[1..]);
      assert Ids([ps[0]] + Insert(p, ps[1..]), PlanKey) == [ps[0].id] + Ids(Insert(p, ps[1..]), PlanKey);
      assert Ids(ps, PlanKey) == [ps[0].id] + Ids(ps[1..], PlanKey);
    }
  }

  lemma {:induction false} WithLimitAppend(xs: seq<Plan>, ys: seq<Plan>, d: real)
    ensures WithLimit(xs + ys, d) == WithLimit(xs, d) + WithLimit(ys, d)
    decreases |xs|
  {
    if |xs| > 0 {
      assert (xs + ys)[1..] == xs[1..] + ys;
      WithLimitAppend(xs[1..], ys, d);
    } else {
      assert xs + ys == ys;
    }
  }

  lemma {:induction false} InsertStable(p: Plan, ps: seq<Plan>, d: real)
    requires SortedByDataLimit(ps)
    ensures WithLimit(Insert(p, ps), d) == WithLimit([p], d) + WithLimit(ps, d)
    decreases |ps|
  {
    if |ps| == 0 || p.dataLimit <= ps[0].dataLimit {
      WithLimitAppend([p], ps, d);
    } else {
      var head := ps[0];
      InsertStable(p, ps[1..], d);
      WithLimitAppend([head], Insert(p, ps[1..]), d);
      WithLimitAppend([head], ps[1..], d);
      assert ps == [head] + ps[1..];
      // head's limit is strictly below p's, so at most one of them has limit d
      // and the two singleton contributions commute.
      assert WithLimit([head], d) + WithLimit([p], d) == WithLimit([p], d) + WithLimit([head], d);
    }
  }
}
