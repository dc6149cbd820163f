/** The mixed-integer quadratic program the pricing optimizer hands to its
    solver. `Build` is the index-set construction, `Feasible` states every
    emitted constraint, and the lemmas say what every feasible point, hence
    every optimum the solver may return, must satisfy. */
module Formulation {
  import opened Entities
  import opened PlanOrder
  import opened Sums

  /** The big-M constant of the quantity linearisation. */
  const BigMQuantity: real := 1000000.0

  /** The cannibalization margin used when the caller gives none. */
  const DefaultMargin: real := 5.0

  type Pair = (PlanId, SegmentId)

  /** The built program: index lists F (plans by ascending data limit) and S
      (segments in input order), the id lookups, capacity and margin. */
  datatype Model = Model(
    F: seq<PlanId>,
    S: seq<SegmentId>,
    planOf: map<PlanId, Plan>,
    segOf: map<SegmentId, Segment>,
    capacity: real,
    margin: real)

  /** Values of the decision variables: price p[f], choice x[f,s],
      activation y[f] and quantity q[f,s]. */
  datatype Solution = Solution(
    price: map<PlanId, real>,
    x: map<Pair, real>,
    y: map<PlanId, real>,
    q: map<Pair, real>)


  /** The index sets and lookups of the program: F lists the plan ids in the
      stable data-limit order, S the segment ids in input order, and each
      lookup maps an id to an input record carrying it. */
  function Build(plans: seq<Plan>, segs: seq<Segment>, capacity: real, margin: real): (m: Model)
    ensures |m.F| == |plans| && m.S == Ids(segs, SegmentKey)
    ensures multiset(m.F) == multiset(Ids(plans, PlanKey))
    ensures forall i :: 0 <= i < |m.F| ==> m.F[i] in m.planOf && m.planOf[m.F[i]].id == m.F[i]
    ensures forall j :: 0 <= j < |m.S| ==> m.S[j] in m.segOf && m.segOf[m.S[j]].id == m.S[j]
    ensures forall i :: 0 <= i < |m.F| ==> m.planOf[m.F[i]] in plans
    ensures forall j :: 0 <= j < |m.S| ==> m.segOf[m.S[j]] in segs
    ensures m.capacity == capacity && m.margin == margin
  {
    var sorted := SortByDataLimit(plans);
    var pm, sm := IndexBy(sorted, PlanKey), IndexBy(segs, SegmentKey);
    LookupsAreRecords(plans, sorted, segs);
    Model(Ids(sorted, PlanKey), Ids(segs, SegmentKey), pm, sm, capacity, margin)
  }

  /** The lookups of a rearrangement of the plans, and of the segments, hold
      input records only. */
  lemma LookupsAreRecords(plans: seq<Plan>, sorted: seq<Plan>, segs: seq<Segment>)
    requires multiset(sorted) == multiset(plans)
    ensures forall k :: k in IndexBy(sorted, PlanKey) ==> IndexBy(sorted, PlanKey)[k] in plans
    ensures forall k :: k in IndexBy(segs, SegmentKey) ==> IndexBy(segs, SegmentKey)[k] in segs
  {
    IndexedAreRecords(sorted, PlanKey);
    IndexedAreRecords(segs, SegmentKey);
    forall p | p in sorted ensures p in plans {
      assert p in multiset(sorted);
    }
  }

  /** With distinct plan ids, data limits never decrease along F. */
  lemma BuildOrdersByDataLimit(plans: seq<Plan>, segs: seq<Segment>, capacity: real, margin: real)
    requires DistinctIds(plans)
    ensures var m := Build(plans, segs, capacity, margin);
      forall i, j :: 0 <= i < j < |m.F| ==> DataLimitOf(m, m.F[i]) <= DataLimitOf(m, m.F[j])
  {
    var sorted := SortByDataLimit(plans);
    DistinctIdsPreserved(plans, sorted);
    DistinctKeysIndexed(sorted, PlanKey);
  }

  /** A variable's value; every variable the program declares is present. */
  function Val<K>(v: map<K, real>, k: K): real
  {
    if k in v then v[k] else 0.0
  }

  function DataLimitOf(m: Model, f: PlanId): real
  {
    if f in m.planOf then m.planOf[f].dataLimit else 0.0
  }

  function CostOf(m: Model, f: PlanId): real
  {
    if f in m.planOf then m.planOf[f].cost else 0.0
  }

  /** The demand curve segment s has for plan f, the zero curve when the
      segment carries no entry for f. */
  function DemandOf(m: Model, f: PlanId, s: SegmentId): (d: Demand)
    ensures s in m.segOf && f in m.segOf[s].params ==> d == m.segOf[s].params[f]
    ensures s in m.segOf && f !in m.segOf[s].params ==> d == NoDemand
  {
    if s in m.segOf then DemandIn(m.segOf[s].params, f) else NoDemand
  }

  /** Quantity the curve gives at price p. */
  function Curve(d: Demand, p: real): real
  {
    d.a - d.b * p
  }

  predicate Binary(v: real)
  {
    v == 0.0 || v == 1.0
  }

  // ---- The constraint families ----

  /** Variable domains: p >= 0, x and y binary, q >= 0, each declared over F and F x S. */
  predicate VariablesDeclared(m: Model, sol: Solution)
  {
    && (forall i :: 0 <= i < |m.F| ==> PlanVariables(sol, m.F[i]))
    && (forall i, j :: 0 <= i < |m.F| && 0 <= j < |m.S| ==> PairVariables(sol, (m.F[i], m.S[j])))
  }

  predicate PlanVariables(sol: Solution, f: PlanId)
  {
    f in sol.price && sol.price[f] >= 0.0 && f in sol.y && Binary(sol.y[f])
  }

  predicate PairVariables(sol: Solution, k: Pair)
  {
    k in sol.x && Binary(sol.x[k]) && k in sol.q && sol.q[k] >= 0.0
  }

  /** The big-M linearisation of q[f,s] = x[f,s] * (a - b * p[f]). */
  predicate Linearized(m: Model, sol: Solution, f: PlanId, s: SegmentId)
  {
    BigMBounds(Val(sol.x, (f, s)), Val(sol.q, (f, s)), Curve(DemandOf(m, f, s), Val(sol.price, f)))
  }

  /** The three big-M inequalities for choice x, quantity q and curve value c. */
  predicate BigMBounds(x: real, q: real, c: real)
  {
    && q <= BigMQuantity * x
    && q <= c + BigMQuantity * (1.0 - x)
    && q >= c - BigMQuantity * (1.0 - x)
  }

  function ChoicesOfPlan(m: Model, sol: Solution, f: PlanId): real
  {
    SumSeq(m.S, s => Val(sol.x, (f, s)))
  }

  function ChoicesOfSegment(m: Model, sol: Solution, s: SegmentId): real
  {
    SumSeq(m.F, f => Val(sol.x, (f, s)))
  }

  /** Activation: the number of segments choosing f is at most |S| * y[f]. */
  predicate ActivationLinked(m: Model, sol: Solution, f: PlanId)
  {
    ChoicesOfPlan(m, sol, f) <= |m.S| as real * Val(sol.y, f)
  }

  /** Every segment chooses exactly one plan. */
  predicate SingleChoice(m: Model, sol: Solution, s: SegmentId)
  {
    ChoicesOfSegment(m, sol, s) == 1.0
  }

  /** Consecutive plans in data-limit order are priced at least `margin` apart. */
  predicate PriceOrdered(m: Model, sol: Solution, i: int)
    requires 0 <= i < |m.F| - 1
  {
    Val(sol.price, m.F[i + 1]) >= Val(sol.price, m.F[i]) + m.margin
  }

  function UsageTerm(m: Model, q: map<Pair, real>, f: PlanId, s: SegmentId): real
  {
    Val(q, (f, s)) * DataLimitOf(m, f)
  }

  function PlanUsage(m: Model, q: map<Pair, real>, f: PlanId): real
  {
    SumSeq(m.S, s => UsageTerm(m, q, f, s))
  }

  /** Total data usage: sum over f and s of q[f,s] * data_limit[f]. */
  function Usage(m: Model, q: map<Pair, real>): real
  {
    SumSeq(m.F, f => PlanUsage(m, q, f))
  }

  predicate Feasible(m: Model, sol: Solution)
  {
    && VariablesDeclared(m, sol)
    && (forall i, j :: 0 <= i < |m.F| && 0 <= j < |m.S| ==> Linearized(m, sol, m.F[i], m.S[j]))
    && (forall i :: 0 <= i < |m.F| ==> ActivationLinked(m, sol, m.F[i]))
    && (forall j :: 0 <= j < |m.S| ==> SingleChoice(m, sol, m.S[j]))
    && (forall i :: 0 <= i < |m.F| - 1 ==> PriceOrdered(m, sol, i))
    && Usage(m, sol.q) <= m.capacity
  }

  // ---- The objective ----

  function ProfitTerm(m: Model, sol: Solution, f: PlanId, s: SegmentId): real
  {
    (Val(sol.price, f) - CostOf(m, f)) * Val(sol.q, (f, s))
  }

  function PlanProfit(m: Model, sol: Solution, f: PlanId): real
  {
    SumSeq(m.S, s => ProfitTerm(m, sol, f, s))
  }

  /** The maximised profit: sum over f and s of (p[f] - cost[f]) * q[f,s]. */
  function Objective(m: Model, sol: Solution): real
  {
    SumSeq(m.F, f => PlanProfit(m, sol, f))
  }

  /** Profit of pair (f, s) computed from the demand curve, counted only when
      s chooses f: the reference the objective is proved equal to. */
  function ChosenTerm(m: Model, sol: Solution, f: PlanId, s: SegmentId): real
  {
    if Val(sol.x, (f, s)) == 1.0
    then (Val(sol.price, f) - CostOf(m, f)) * Curve(DemandOf(m, f, s), Val(sol.price, f))
    else 0.0
  }

  function ChosenProfitOfPlan(m: Model, sol: Solution, f: PlanId): real
  {
    SumSeq(m.S, s => ChosenTerm(m, sol, f, s))
  }

  function ChosenProfit(m: Model, sol: Solution): real
  {
    SumSeq(m.F, f => ChosenProfitOfPlan(m, sol, f))
  }

  /** The solver's optimality promise: feasible and no feasible point does better. */
  ghost predicate Optimal(m: Model, sol: Solution)
  {
    Feasible(m, sol) && forall other :: Feasible(m, other) ==> Objective(m, other) <= Objective(m, sol)
  }

  // ---- What every feasible point satisfies ----

  /** The three linearisation inequalities with x binary and q >= 0, in terms
      of the curve value c = a - b * p. */
  lemma LinearizationCases(x: real, q: real, c: real)
    requires LinearizationHolds(x, q, c)
    ensures x == 0.0 ==> q == 0.0 && -BigMQuantity <= c <= BigMQuantity
    ensures x == 1.0 ==> q == c && 0.0 <= c <= BigMQuantity
  {
  }

  /** The linearisation facts of one pair, read off a feasible point. */
  lemma PairFacts(m: Model, sol: Solution, i: int, j: int)
    requires Feasible(m, sol)
    requires 0 <= i < |m.F| && 0 <= j < |m.S|
    ensures PlanVariables(sol, m.F[i]) && PairVariables(sol, (m.F[i], m.S[j]))
    ensures LinearizationHolds(sol.x[(m.F[i], m.S[j])], sol.q[(m.F[i], m.S[j])],
                               Curve(DemandOf(m, m.F[i], m.S[j]), sol.price[m.F[i]]))
  {
    var f, s := m.F[i], m.S[j];
    assert PlanVariables(sol, f);
    assert PairVariables(sol, (f, s));
    assert Linearized(m, sol, f, s);
    assert Val(sol.x, (f, s)) == sol.x[(f, s)] && Val(sol.q, (f, s)) == sol.q[(f, s)];
    assert Val(sol.price, f) == sol.price[f];
  }

  /** The variable domains together with the big-M bounds of one pair. */
  predicate LinearizationHolds(x: real, q: real, c: real)
  {
    Binary(x) && q >= 0.0 && BigMBounds(x, q, c)
  }

  /** Big-M exactness: an unchosen pair has quantity 0; a chosen pair has
      exactly the demand-curve quantity, which is then non-negative. */
  lemma QuantityExact(m: Model, sol: Solution, i: int, j: int)
    requires Feasible(m, sol)
    requires 0 <= i < |m.F| && 0 <= j < |m.S|
    ensures (m.F[i], m.S[j]) in sol.x && (m.F[i], m.S[j]) in sol.q && m.F[i] in sol.price
    ensures sol.x[(m.F[i], m.S[j])] == 0.0 ==> sol.q[(m.F[i], m.S[j])] == 0.0
    ensures sol.x[(m.F[i], m.S[j])] == 1.0 ==>
      sol.q[(m.F[i], m.S[j])] == Curve(DemandOf(m, m.F[i], m.S[j]), sol.price[m.F[i]])
    ensures sol.x[(m.F[i], m.S[j])] == 1.0 ==>
      DemandOf(m, m.F[i], m.S[j]).b * sol.price[m.F[i]] <= DemandOf(m, m.F[i], m.S[j]).a
  {
    PairFacts(m, sol, i, j);
    var k := (m.F[i], m.S[j]);
    LinearizationCases(sol.x[k], sol.q[k], Curve(DemandOf(m, m.F[i], m.S[j]), sol.price[m.F[i]]));
  }

  /** Big-M residue: even for an unchosen pair the curve value at the plan's
      price must lie within [-M, M], so unchosen plans still bound the price. */
  lemma BigMResidue(m: Model, sol: Solution, i: int, j: int)
    requires Feasible(m, sol)
    requires 0 <= i < |m.F| && 0 <= j < |m.S|
    requires sol.x[(m.F[i], m.S[j])] == 0.0
    ensures -BigMQuantity <= Curve(DemandOf(m, m.F[i], m.S[j]), sol.price[m.F[i]]) <= BigMQuantity
  {
    PairFacts(m, sol, i, j);
    var k := (m.F[i], m.S[j]);
    LinearizationCases(sol.x[k], sol.q[k], Curve(DemandOf(m, m.F[i], m.S[j]), sol.price[m.F[i]]));
  }

  /** Every segment chooses exactly one position of F. */
  lemma ExactlyOneChoice(m: Model, sol: Solution, j: int)
    requires Feasible(m, sol)
    requires 0 <= j < |m.S|
    ensures exists i :: 0 <= i < |m.F| && sol.x[(m.F[i], m.S[j])] == 1.0
    ensures forall i, k :: 0 <= i < k < |m.F| && sol.x[(m.F[i], m.S[j])] == 1.0 ==>
      sol.x[(m.F[k], m.S[j])] == 0.0
  {
    var s := m.S[j];
    forall i | 0 <= i < |m.F| ensures Binary(Val(sol.x, (m.F[i], s))) {
      assert PairVariables(sol, (m.F[i], s));
    }
    assert SingleChoice(m, sol, s);
    ExactlyOneTermIsOne(m.F, f => Val(sol.x, (f, s)));
    forall i | 0 <= i < |m.F| ensures sol.x[(m.F[i], s)] == Val(sol.x, (m.F[i], s)) {
      assert PairVariables(sol, (m.F[i], s));
    }
  }

  /** With no plan, a segment cannot choose one: no feasible point exists. */
  lemma NoPlansInfeasible(m: Model, sol: Solution)
    requires |m.F| == 0 && |m.S| > 0
    ensures !Feasible(m, sol)
  {
    assert ChoicesOfSegment(m, sol, m.S[0]) == 0.0;
  }

  /** A plan that some segment chooses is active. */
  lemma ChosenPlanIsActive(m: Model, sol: Solution, i: int, j: int)
    requires Feasible(m, sol)
    requires 0 <= i < |m.F| && 0 <= j < |m.S|
    requires sol.x[(m.F[i], m.S[j])] == 1.0
    ensures sol.y[m.F[i]] == 1.0
  {
    var f := m.F[i];
    forall k | 0 <= k < |m.S| ensures Val(sol.x, (f, m.S[k])) >= 0.0 {
      assert PairVariables(sol, (f, m.S[k]));
    }
    TermAtMostSum(m.S, s => Val(sol.x, (f, s)), j);
    assert ActivationLinked(m, sol, f);
    assert PlanVariables(sol, f);
  }

  /** Equivalently: an inactive plan is chosen by no segment. */
  lemma InactivePlanUnchosen(m: Model, sol: Solution, i: int)
    requires Feasible(m, sol)
    requires 0 <= i < |m.F| && sol.y[m.F[i]] == 0.0
    ensures forall j :: 0 <= j < |m.S| ==> sol.x[(m.F[i], m.S[j])] == 0.0
  {
    forall j | 0 <= j < |m.S| ensures sol.x[(m.F[i], m.S[j])] == 0.0 {
      assert PairVariables(sol, (m.F[i], m.S[j]));
      if sol.x[(m.F[i], m.S[j])] == 1.0 {
        ChosenPlanIsActive(m, sol, i, j);
      }
    }
  }

  /** The price chain: j - i steps along F raise the price by at least (j - i) margins. */
  lemma {:induction false} PriceChain(m: Model, sol: Solution, i: int, j: int)
    requires Feasible(m, sol)
    requires 0 <= i <= j < |m.F|
    ensures sol.price[m.F[j]] >= sol.price[m.F[i]] + (j - i) as real * m.margin
    decreases j - i
  {
    assert PlanVariables(sol, m.F[i]) && PlanVariables(sol, m.F[j]);
    if i < j {
      PriceChain(m, sol, i, j - 1);
      assert PriceOrdered(m, sol, j - 1);
      assert PlanVariables(sol, m.F[j - 1]);
    }
  }

  /** Prices are non-negative, so the k-th plan in F costs at least k margins. */
  lemma PriceFloor(m: Model, sol: Solution, k: int)
    requires Feasible(m, sol)
    requires 0 <= k < |m.F|
    ensures sol.price[m.F[k]] >= k as real * m.margin
  {
    PriceChain(m, sol, 0, k);
    assert PlanVariables(sol, m.F[0]);
  }

  /** With a non-negative margin, a later plan in F is priced at least one margin higher. */
  lemma LaterPlanCostsMore(m: Model, sol: Solution, i: int, j: int)
    requires Feasible(m, sol) && m.margin >= 0.0
    requires 0 <= i < j < |m.F|
    ensures sol.price[m.F[j]] >= sol.price[m.F[i]] + m.margin
  {
    PriceChain(m, sol, i, j);
    var n := (j - i - 1) as real;
    assert n * m.margin >= 0.0;
    assert (j - i) as real * m.margin == m.margin + n * m.margin;
  }

  /** Every input plan sits in F at the position the stable sort gave it. */
  lemma PlanPosition(plans: seq<Plan>, segs: seq<Segment>, capacity: real, margin: real, p: Plan)
    returns (k: int)
    requires p in plans
    ensures 0 <= k < |plans| && SortByDataLimit(plans)[k] == p
    ensures Build(plans, segs, capacity, margin).F[k] == p.id
  {
    var sorted := SortByDataLimit(plans);
    assert p in multiset(sorted);
    k :| 0 <= k < |sorted| && sorted[k] == p;
  }

  lemma SortedPositions(ps: seq<Plan>, a: int, b: int)
    requires SortedByDataLimit(ps)
    requires 0 <= a < |ps| && 0 <= b < |ps| && ps[a].dataLimit < ps[b].dataLimit
    ensures a < b
  {
  }

  /** "More data is never cheaper": for plans with a non-negative margin, a
      plan with a larger data limit is priced at least one margin above a plan
      with a smaller one. */
  lemma MoreDataNeverCheaper(plans: seq<Plan>, segs: seq<Segment>, capacity: real, margin: real,
                             sol: Solution, lo: Plan, hi: Plan)
    requires margin >= 0.0
    requires Feasible(Build(plans, segs, capacity, margin), sol)
    requires lo in plans && hi in plans && lo.dataLimit < hi.dataLimit
    ensures lo.id in sol.price && hi.id in sol.price
    ensures sol.price[hi.id] >= sol.price[lo.id] + margin
  {
    var m := Build(plans, segs, capacity, margin);
    var a := PlanPosition(plans, segs, capacity, margin, lo);
    var b := PlanPosition(plans, segs, capacity, margin, hi);
    SortedPositions(SortByDataLimit(plans), a, b);
    LaterPlanCostsMore(m, sol, a, b);
  }

  /** The objective identity: at every feasible point the objective is the
      curve profit summed over the chosen pairs; unchosen pairs add nothing. */
  lemma ObjectiveIsChosenProfit(m: Model, sol: Solution)
    requires Feasible(m, sol)
    ensures Objective(m, sol) == ChosenProfit(m, sol)
  {
    forall i | 0 <= i < |m.F| ensures PlanProfit(m, sol, m.F[i]) == ChosenProfitOfPlan(m, sol, m.F[i]) {
      var f := m.F[i];
      forall j | 0 <= j < |m.S| ensures ProfitTerm(m, sol, f, m.S[j]) == ChosenTerm(m, sol, f, m.S[j]) {
        QuantityExact(m, sol, i, j);
        assert PairVariables(sol, (f, m.S[j]));
        assert PlanVariables(sol, f);
      }
      SumCongruent(m.S, s => ProfitTerm(m, sol, f, s), s => ChosenTerm(m, sol, f, s));
    }
    SumCongruent(m.F, f => PlanProfit(m, sol, f), f => ChosenProfitOfPlan(m, sol, f));
  }

  /** Each segment's share of the objective is the curve profit of the plan
      it chose (one exists by ExactlyOneChoice). */
  lemma SegmentProfit(m: Model, sol: Solution, i: int, j: int)
    requires Feasible(m, sol)
    requires 0 <= i < |m.F| && 0 <= j < |m.S|
    requires sol.x[(m.F[i], m.S[j])] == 1.0
    ensures SumSeq(m.F, f => ProfitTerm(m, sol, f, m.S[j])) ==
      (sol.price[m.F[i]] - CostOf(m, m.F[i])) * Curve(DemandOf(m, m.F[i], m.S[j]), sol.price[m.F[i]])
  {
    var s := m.S[j];
    forall k | 0 <= k < |m.F| && k != i ensures ProfitTerm(m, sol, m.F[k], s) == 0.0 {
      UnchosenEarnsNothing(m, sol, i, k, j);
    }
    SumSingleTerm(m.F, f => ProfitTerm(m, sol, f, s), i);
    ChosenEarnsCurveProfit(m, sol, i, j);
  }

  /** The profit term of a chosen pair is its curve profit. */
  lemma ChosenEarnsCurveProfit(m: Model, sol: Solution, i: int, j: int)
    requires Feasible(m, sol)
    requires 0 <= i < |m.F| && 0 <= j < |m.S|
    requires sol.x[(m.F[i], m.S[j])] == 1.0
    ensures ProfitTerm(m, sol, m.F[i], m.S[j]) ==
      (sol.price[m.F[i]] - CostOf(m, m.F[i])) * Curve(DemandOf(m, m.F[i], m.S[j]), sol.price[m.F[i]])
  {
    QuantityExact(m, sol, i, j);
  }

  /** A plan other than the chosen one contributes no profit for the segment. */
  lemma UnchosenEarnsNothing(m: Model, sol: Solution, i: int, k: int, j: int)
    requires Feasible(m, sol)
    requires 0 <= i < |m.F| && 0 <= k < |m.F| && k != i && 0 <= j < |m.S|
    requires sol.x[(m.F[i], m.S[j])] == 1.0
    ensures ProfitTerm(m, sol, m.F[k], m.S[j]) == 0.0
  {
    ExactlyOneChoice(m, sol, j);
    QuantityExact(m, sol, k, j);
    PairFacts(m, sol, k, j);
    if k < i {
      assert sol.x[(m.F[k], m.S[j])] != 1.0;
    }
  }

  /** With no segment, every feasible point earns nothing and uses nothing. */
  lemma NoSegmentsNoProfit(m: Model, sol: Solution)
    requires |m.S| == 0
    ensures Objective(m, sol) == 0.0 && Usage(m, sol.q) == 0.0
  {
    forall i | 0 <= i < |m.F| ensures PlanProfit(m, sol, m.F[i]) == 0.0 && PlanUsage(m, sol.q, m.F[i]) == 0.0 {
    }
    SumOfZeros(m.F, f => PlanProfit(m, sol, f));
    SumOfZeros(m.F, f => PlanUsage(m, sol.q, f));
  }

  lemma ProductSign(q: real, d: real)
    requires q >= 0.0 && d > 0.0
    ensures q * d >= 0.0
    ensures q * d <= 0.0 ==> q == 0.0
  {
  }

  /** Each plan's usage is non-negative and bounds each of its pair terms. */
  lemma PlanUsageBounds(m: Model, sol: Solution, i: int)
    requires VariablesDeclared(m, sol)
    requires forall k :: 0 <= k < |m.F| ==> DataLimitOf(m, m.F[k]) > 0.0
    requires 0 <= i < |m.F|
    ensures PlanUsage(m, sol.q, m.F[i]) >= 0.0
    ensures forall j :: 0 <= j < |m.S| ==> UsageTerm(m, sol.q, m.F[i], m.S[j]) <= PlanUsage(m, sol.q, m.F[i])
  {
    var f := m.F[i];
    forall l | 0 <= l < |m.S| ensures UsageTerm(m, sol.q, f, m.S[l]) >= 0.0 {
      assert PairVariables(sol, (f, m.S[l]));
      ProductSign(sol.q[(f, m.S[l])], DataLimitOf(m, f));
    }
    SumNonNegative(m.S, s => UsageTerm(m, sol.q, f, s));
    forall j | 0 <= j < |m.S| ensures UsageTerm(m, sol.q, f, m.S[j]) <= PlanUsage(m, sol.q, f) {
      TermAtMostSum(m.S, s => UsageTerm(m, sol.q, f, s), j);
    }
  }

  /** Degenerate capacity: with no capacity and positive data limits, every
      feasible quantity is zero. */
  lemma NoCapacityNoQuantity(m: Model, sol: Solution, i: int, j: int)
    requires Feasible(m, sol)
    requires m.capacity <= 0.0
    requires forall k :: 0 <= k < |m.F| ==> DataLimitOf(m, m.F[k]) > 0.0
    requires 0 <= i < |m.F| && 0 <= j < |m.S|
    ensures sol.q[(m.F[i], m.S[j])] == 0.0
  {
    forall k | 0 <= k < |m.F| ensures PlanUsage(m, sol.q, m.F[k]) >= 0.0 {
      PlanUsageBounds(m, sol, k);
    }
    TermAtMostSum(m.F, g => PlanUsage(m, sol.q, g), i);
    PlanUsageBounds(m, sol, i);
    PairFacts(m, sol, i, j);
    ProductSign(sol.q[(m.F[i], m.S[j])], DataLimitOf(m, m.F[i]));
  }

  /** With no segments every objective collapses to zero, so any feasible
      point the solver returns is already optimal. */
  lemma NoSegmentsEveryFeasibleOptimal(m: Model, sol: Solution)
    requires |m.S| == 0 && Feasible(m, sol)
    ensures Optimal(m, sol)
  {
    NoSegmentsNoProfit(m, sol);
    forall other | Feasible(m, other) ensures Objective(m, other) <= Objective(m, sol) {
      NoSegmentsNoProfit(m, other);
    }
  }
}
