/** Solving and result extraction. The solver engine is a black box: here it
    is a function from the built program to an outcome. What the model
    assumes of it (an optimal status comes with a point meeting every
    constraint exactly, whose objective is the reported value) is a
    hypothesis of the lemmas, never an axiom. */
module Extraction {
  import opened Entities
  import opened Sums
  import opened Formulation

  datatype SolveStatus = StatusOptimal | StatusOther(code: int)

  /** What a solve attempt ends in: a status with the values read from the
      variables, an engine error, or any other exception. */
  datatype SolverOutcome =
    | Finished(status: SolveStatus, objVal: real, sol: Solution)
    | EngineError(message: string)
    | UnexpectedError(message: string)

  /** The result dictionary returned on an optimal solve. */
  datatype OptimizationResult = OptimizationResult(
    status: string,
    objective: real,
    prices: map<PlanId, real>,
    quantities: map<Pair, real>,
    choices: map<Pair, real>,
    active: map<PlanId, real>,
    totalUsage: real)

  function PlanSet(m: Model): set<PlanId>
  {
    set i | 0 <= i < |m.F| :: m.F[i]
  }

  function PairSet(m: Model): set<Pair>
  {
    set i, j | 0 <= i < |m.F| && 0 <= j < |m.S| :: (m.F[i], m.S[j])
  }

  /** Reads every declared variable into the result. The total usage is
      recomputed from the quantities and data limits, not taken from the
      objective. */
  function Extract(m: Model, objVal: real, sol: Solution): (r: OptimizationResult)
    ensures r.status == "Optimal" && r.objective == objVal
    ensures r.totalUsage == Usage(m, sol.q)
    ensures r.prices.Keys == PlanSet(m) && r.active.Keys == PlanSet(m)
    ensures r.quantities.Keys == PairSet(m) && r.choices.Keys == PairSet(m)
    ensures forall i :: 0 <= i < |m.F| ==>
      r.prices[m.F[i]] == Val(sol.price, m.F[i]) && r.active[m.F[i]] == Val(sol.y, m.F[i])
    ensures forall i, j :: 0 <= i < |m.F| && 0 <= j < |m.S| ==>
      r.quantities[(m.F[i], m.S[j])] == Val(sol.q, (m.F[i], m.S[j])) &&
      r.choices[(m.F[i], m.S[j])] == Val(sol.x, (m.F[i], m.S[j]))
  {
    OptimizationResult(
      "Optimal",
      objVal,
      map f | f in PlanSet(m) :: Val(sol.price, f),
      map k | k in PairSet(m) :: Val(sol.q, k),
      map k | k in PairSet(m) :: Val(sol.x, k),
      map f | f in PlanSet(m) :: Val(sol.y, f),
      Usage(m, sol.q))
  }

  /** build_and_solve: without a solver library, or on any outcome but an
      optimal status, there is no result. */
  function BuildAndSolve(solverAvailable: bool, plans: seq<Plan>, segs: seq<Segment>, capacity: real,
                         margin: real, solver: Model -> SolverOutcome): (r: Option<OptimizationResult>)
    ensures !solverAvailable ==> r == None
    ensures solverAvailable ==>
      var outcome := solver(Build(plans, segs, capacity, margin));
      (r.Some? <==> outcome.Finished? && outcome.status == StatusOptimal)
    ensures r.Some? ==> r.value.status == "Optimal"
  {
    if !solverAvailable then None
    else
      var m := Build(plans, segs, capacity, margin);
      match solver(m)
      case Finished(StatusOptimal, objVal, sol) => Some(Extract(m, objVal, sol))
      case _ => None
  }

  /** What the model assumes of the solver for one program: an optimal status
      comes with a point meeting every constraint exactly (no feasibility or
      integrality tolerance), and the reported objective is that point's objective. */
  predicate SolverSound(m: Model, outcome: SolverOutcome)
  {
    outcome.Finished? && outcome.status == StatusOptimal ==>
      Feasible(m, outcome.sol) && outcome.objVal == Objective(m, outcome.sol)
  }

  /** The reported total usage never exceeds the capacity. */
  lemma ResultWithinCapacity(solverAvailable: bool, plans: seq<Plan>, segs: seq<Segment>, capacity: real,
                             margin: real, solver: Model -> SolverOutcome)
    requires SolverSound(Build(plans, segs, capacity, margin), solver(Build(plans, segs, capacity, margin)))
    ensures var r := BuildAndSolve(solverAvailable, plans, segs, capacity, margin, solver);
      r.Some? ==> r.value.totalUsage <= capacity
  {
  }

  /** Reported prices follow the data-limit order with the margin. */
  lemma ResultPricesOrdered(solverAvailable: bool, plans: seq<Plan>, segs: seq<Segment>, capacity: real,
                            margin: real, solver: Model -> SolverOutcome, i: int)
    requires SolverSound(Build(plans, segs, capacity, margin), solver(Build(plans, segs, capacity, margin)))
    requires 0 <= i < |plans| - 1
    ensures var r := BuildAndSolve(solverAvailable, plans, segs, capacity, margin, solver);
      var F := Build(plans, segs, capacity, margin).F;
      r.Some? ==> r.value.prices[F[i + 1]] >= r.value.prices[F[i]] + margin
  {
    var m := Build(plans, segs, capacity, margin);
    var outcome := solver(m);
    if solverAvailable && outcome.Finished? && outcome.status == StatusOptimal {
      var r := Extract(m, outcome.objVal, outcome.sol);
      ResultIsExtract(solverAvailable, plans, segs, capacity, margin, solver);
      ExtractedPricesOrdered(m, outcome.objVal, outcome.sol, i);
      assert r.prices[m.F[i + 1]] >= r.prices[m.F[i]] + m.margin;
    }
  }

  /** An optimal outcome is reported as the values it carries. */
  lemma ResultIsExtract(solverAvailable: bool, plans: seq<Plan>, segs: seq<Segment>, capacity: real,
                        margin: real, solver: Model -> SolverOutcome)
    ensures var m := Build(plans, segs, capacity, margin);
      var outcome := solver(m);
      solverAvailable && outcome.Finished? && outcome.status == StatusOptimal ==>
        BuildAndSolve(solverAvailable, plans, segs, capacity, margin, solver) == Some(Extract(m, outcome.objVal, outcome.sol))
  {
  }

  /** In the result read from a feasible point, consecutive prices of F are a margin apart. */
  lemma ExtractedPricesOrdered(m: Model, objVal: real, sol: Solution, i: int)
    requires Feasible(m, sol) && 0 <= i < |m.F| - 1
    ensures Extract(m, objVal, sol).prices[m.F[i + 1]] >= Extract(m, objVal, sol).prices[m.F[i]] + m.margin
  {
    PriceChain(m, sol, i, i + 1);
    assert PlanVariables(sol, m.F[i]) && PlanVariables(sol, m.F[i + 1]);
  }

  /** In the result read from a feasible point, a segment's choices hold
      exactly one 1: one position of F is chosen and every later one is 0. */
  lemma ExtractedSegmentChooses(m: Model, objVal: real, sol: Solution, j: int)
    requires Feasible(m, sol) && 0 <= j < |m.S|
    ensures exists l :: 0 <= l < |m.F| && Extract(m, objVal, sol).choices[(m.F[l], m.S[j])] == 1.0
    ensures forall i, k :: 0 <= i < k < |m.F| && Extract(m, objVal, sol).choices[(m.F[i], m.S[j])] == 1.0 ==>
      Extract(m, objVal, sol).choices[(m.F[k], m.S[j])] == 0.0
  {
    var r := Extract(m, objVal, sol);
    ExactlyOneChoice(m, sol, j);
    var l :| 0 <= l < |m.F| && sol.x[(m.F[l], m.S[j])] == 1.0;
    assert r.choices[(m.F[l], m.S[j])] == 1.0;
    forall i, k | 0 <= i < k < |m.F| && r.choices[(m.F[i], m.S[j])] == 1.0
      ensures r.choices[(m.F[k], m.S[j])] == 0.0
    {
      assert sol.x[(m.F[i], m.S[j])] == 1.0;
    }
  }

  /** In the result read from a feasible point, quantities follow the choices. */
  lemma ExtractedQuantity(m: Model, objVal: real, sol: Solution, i: int, j: int)
    requires Feasible(m, sol) && 0 <= i < |m.F| && 0 <= j < |m.S|
    ensures var r := Extract(m, objVal, sol);
      var k := (m.F[i], m.S[j]);
      && (r.choices[k] == 0.0 ==> r.quantities[k] == 0.0)
      && (r.choices[k] == 1.0 ==> r.quantities[k] == Curve(DemandOf(m, m.F[i], m.S[j]), r.prices[m.F[i]]))
  {
    QuantityExact(m, sol, i, j);
  }

  /** Each segment's reported choices hold exactly one 1, and the reported
      quantity of every pair is its curve quantity when chosen and 0 otherwise. */
  lemma ResultChoicesAndQuantities(solverAvailable: bool, plans: seq<Plan>, segs: seq<Segment>, capacity: real,
                                   margin: real, solver: Model -> SolverOutcome, i: int, j: int)
    requires SolverSound(Build(plans, segs, capacity, margin), solver(Build(plans, segs, capacity, margin)))
    requires 0 <= i < |plans| && 0 <= j < |segs|
    ensures var r := BuildAndSolve(solverAvailable, plans, segs, capacity, margin, solver);
      var m := Build(plans, segs, capacity, margin);
      var k := (m.F[i], m.S[j]);
      r.Some? ==>
        && (exists l :: 0 <= l < |m.F| && r.value.choices[(m.F[l], m.S[j])] == 1.0)
        && (forall l, n :: 0 <= l < n < |m.F| && r.value.choices[(m.F[l], m.S[j])] == 1.0 ==>
              r.value.choices[(m.F[n], m.S[j])] == 0.0)
        && (r.value.choices[k] == 0.0 ==> r.value.quantities[k] == 0.0)
        && (r.value.choices[k] == 1.0 ==>
              r.value.quantities[k] == Curve(DemandOf(m, m.F[i], m.S[j]), r.value.prices[m.F[i]]))
  {
    var m := Build(plans, segs, capacity, margin);
    if solverAvailable && solver(m).Finished? && solver(m).status == StatusOptimal {
      ResultIsExtract(solverAvailable, plans, segs, capacity, margin, solver);
      ExtractedSegmentChooses(m, solver(m).objVal, solver(m).sol, j);
      ExtractedQuantity(m, solver(m).objVal, solver(m).sol, i, j);
    }
  }

  /** The reported objective is the curve profit over the chosen pairs. */
  lemma ResultObjectiveIsChosenProfit(solverAvailable: bool, plans: seq<Plan>, segs: seq<Segment>, capacity: real,
                                      margin: real, solver: Model -> SolverOutcome)
    requires SolverSound(Build(plans, segs, capacity, margin), solver(Build(plans, segs, capacity, margin)))
    ensures var r := BuildAndSolve(solverAvailable, plans, segs, capacity, margin, solver);
      var m := Build(plans, segs, capacity, margin);
      r.Some? ==> r.value.objective == ChosenProfit(m, solver(m).sol)
  {
    var m := Build(plans, segs, capacity, margin);
    var r := BuildAndSolve(solverAvailable, plans, segs, capacity, margin, solver);
    if r.Some? {
      ObjectiveIsChosenProfit(m, solver(m).sol);
    }
  }

  /** With no segments, a reported result earns nothing and uses nothing. */
  lemma ResultWithoutSegments(solverAvailable: bool, plans: seq<Plan>, capacity: real,
                              margin: real, solver: Model -> SolverOutcome)
    requires SolverSound(Build(plans, [], capacity, margin), solver(Build(plans, [], capacity, margin)))
    ensures var r := BuildAndSolve(solverAvailable, plans, [], capacity, margin, solver);
      r.Some? ==> r.value.objective == 0.0 && r.value.totalUsage == 0.0
  {
    var m := Build(plans, [], capacity, margin);
    if solverAvailable && solver(m).Finished? {
      NoSegmentsNoProfit(m, solver(m).sol);
    }
  }
}
