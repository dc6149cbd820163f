/** The business entities the pricing optimizer and the input tab exchange:
    plans, customer segments and their linear demand curves. In the program
    these are plain dictionaries; here each is a datatype. */
module Entities {

  datatype Option<+T> = None | Some(value: T)

  type PlanId = string
  type SegmentId = string

  /** A linear demand curve: quantity = a - b * price. */
  datatype Demand = Demand(a: real, b: real)

  /** The curve a segment has for a plan it carries no entry for. */
  const NoDemand: Demand := Demand(0.0, 0.0)

  /** A product tier: identifier, display name, usage per purchase and unit cost. */
  datatype Plan = Plan(id: PlanId, name: string, dataLimit: real, cost: real)

  /** A customer segment. `size` is carried along but enters no constraint. */
  datatype Segment = Segment(id: SegmentId, name: string, size: real, params: map<PlanId, Demand>)

  function PlanKey(p: Plan): PlanId { p.id }
  function SegmentKey(s: Segment): SegmentId { s.id }

  /** The keys of a sequence, in order, as a list comprehension `[key(x) for x in xs]` builds them. */
  function Ids<T>(xs: seq<T>, key: T -> string): (ids: seq<string>)
    ensures |ids| == |xs|
    ensures forall i :: 0 <= i < |xs| ==> ids[i] == key(xs[i])
  {
    seq(|xs|, i requires 0 <= i < |xs| => key(xs[i]))
  }

  /** The demand curve a parameter dictionary gives a plan, reading a missing
      entry as the zero curve. */
  function DemandIn(params: map<PlanId, Demand>, f: PlanId): (d: Demand)
    ensures f in params ==> d == params[f]
    ensures f !in params ==> d.a == 0.0 && d.b == 0.0
  {
    if f in params then params[f] else NoDemand
  }

  /** A dictionary built by a comprehension `{key(x): x for x in xs}`: every
      key of xs is present and, where a key repeats, the LAST element wins. */
  function IndexBy<T>(xs: seq<T>, key: T -> string): (m: map<string, T>)
    ensures forall i :: 0 <= i < |xs| ==> key(xs[i]) in m
    ensures forall k :: k in m ==> exists i :: 0 <= i < |xs| && key(xs[i]) == k && m[k] == xs[i]
    decreases |xs|
  {
    if |xs| == 0 then map[]
    else
      var m0 := IndexBy(xs[..|xs| - 1], key);
      assert forall i :: 0 <= i < |xs| - 1 ==> xs[..|xs| - 1][i] == xs[i];
      m0[key(xs[|xs| - 1]) := xs[|xs| - 1]]
  }

  /** Every value of an index is one of the indexed records. */
  lemma IndexedAreRecords<T>(xs: seq<T>, key: T -> string)
    ensures forall k :: k in IndexBy(xs, key) ==> IndexBy(xs, key)[k] in xs
  {
    var m := IndexBy(xs, key);
    forall k | k in m ensures m[k] in xs {
      var i :| 0 <= i < |xs| && key(xs[i]) == k && m[k] == xs[i];
    }
  }

  /** Where a key repeats, the dictionary holds the last element carrying it. */
  lemma {:induction false} IndexByLastWins<T>(xs: seq<T>, key: T -> string, i: int)
    requires 0 <= i < |xs| && LastWithKey(xs, key, i)
    ensures IndexBy(xs, key)[key(xs[i])] == xs[i]
    decreases |xs|
  {
    if i < |xs| - 1 {
      var init := xs[..|xs| - 1];
      assert init[i] == xs[i];
      assert key(xs[|xs| - 1]) != key(xs[i]);
      assert LastWithKey(init, key, i) by {
        forall j | i < j < |init| ensures key(init[j]) != key(init[i]) {
          assert init[j] == xs[j];
        }
      }
      IndexByLastWins(init, key, i);
    }
  }

  /** No element after position i shares its key. */
  predicate LastWithKey<T>(xs: seq<T>, key: T -> string, i: int)
    requires 0 <= i < |xs|
  {
    forall j :: i < j < |xs| ==> key(xs[j]) != key(xs[i])
  }

  /** Every element of a sequence with pairwise distinct keys is found under its key. */
  lemma DistinctKeysIndexed<T>(xs: seq<T>, key: T -> string)
    requires forall i, j :: 0 <= i < j < |xs| ==> key(xs[i]) != key(xs[j])
    ensures forall i :: 0 <= i < |xs| ==> IndexBy(xs, key)[key(xs[i])] == xs[i]
  {
    forall i | 0 <= i < |xs| ensures IndexBy(xs, key)[key(xs[i])] == xs[i] {
      IndexByLastWins(xs, key, i);
    }
  }

  predicate DistinctIds(ps: seq<Plan>)
  {
    forall i, j :: 0 <= i < j < |ps| ==> ps[i].id != ps[j].id
  }

  /** Pairwise distinct identifiers occur at most once each. */
  lemma {:induction false} DistinctOccursAtMostOnce(xs: seq<string>, x: string)
    requires forall i, j :: 0 <= i < j < |xs| ==> xs[i] != xs[j]
    ensures multiset(xs)[x] <= 1
    decreases |xs|
  {
    if |xs| > 0 {
      assert xs == [xs[0]] + xs[1..];
      DistinctOccursAtMostOnce(xs[1..], x);
      if xs[0] == x {
        assert x !in xs[1..];
      }
    }
  }

  /** An identifier found at two positions occurs at least twice. */
  lemma RepeatOccursTwice(xs: seq<string>, i: int, j: int)
    requires 0 <= i < j < |xs| && xs[i] == xs[j]
    ensures multiset(xs)[xs[i]] >= 2
  {
    assert xs == xs[..j] + [xs[j]] + xs[j + 1..];
    assert xs[i] in xs[..j];
  }

  /** Rearranging plans without changing their identifiers keeps them distinct. */
  lemma DistinctIdsPreserved(ps: seq<Plan>, qs: seq<Plan>)
    requires multiset(Ids(ps, PlanKey)) == multiset(Ids(qs, PlanKey))
    requires DistinctIds(ps)
    ensures DistinctIds(qs)
  {
    forall i, j | 0 <= i < j < |qs| ensures qs[i].id != qs[j].id {
      if qs[i].id == qs[j].id {
        RepeatOccursTwice(Ids(qs, PlanKey), i, j);
        DistinctOccursAtMostOnce(Ids(ps, PlanKey), qs[i].id);
      }
    }
  }
}
