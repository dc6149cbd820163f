/** A concrete instance of the formulation: two plans and one segment.
    P1 (1 GB, cost 2) and P2 (10 GB, cost 5); the segment's curves are
    P1: 100 - 2p and P2: 80 - p; capacity 1000 and the default margin. */
module Scenarios {
  import opened Entities
  import opened PlanOrder
  import opened Sums
  import opened Formulation

  const P1: Plan := Plan("P1", "Entry", 1.0, 2.0)
  const P2: Plan := Plan("P2", "Standard", 10.0, 5.0)
  const S1: Segment := Segment("S", "Users", 1000.0, map["P1" := Demand(100.0, 2.0), "P2" := Demand(80.0, 1.0)])

  function ScenarioModel(): Model
  {
    Build([P2, P1], [S1], 1000.0, DefaultMargin)
  }

  lemma SortScenario()
    ensures SortByDataLimit([P2, P1]) == [P1, P2]
  {
    assert [P2, P1][1..] == [P1];
    assert [P1][1..] == [];
    assert SortByDataLimit([P1]) == Insert(P1, []) == [P1];
    assert Insert(P1, [P2]) == [P1, P2];
  }

  lemma IndexScenarioPlans()
    ensures IndexBy([P1, P2], PlanKey) == map["P1" := P1, "P2" := P2]
  {
    assert [P1, P2][..1] == [P1];
    assert [P1][..0] == [];
    assert IndexBy([P1], PlanKey) == map["P1" := P1];
  }

  lemma IndexScenarioSegments()
    ensures IndexBy([S1], SegmentKey) == map["S" := S1]
  {
    assert [S1][..0] == [];
  }

  /** The program Build produces for the scenario. */
  const Expected: Model :=
    Model(["P1", "P2"], ["S"], map["P1" := P1, "P2" := P2], map["S" := S1], 1000.0, DefaultMargin)

  /** The built program orders the plans by data limit whatever the input order. */
  lemma ScenarioIndexSets()
    ensures ScenarioModel() == Expected
  {
    ScenarioF();
    ScenarioS();
    ScenarioMaps();
    var m := ScenarioModel();
    assert m == Model(m.F, m.S, m.planOf, m.segOf, m.capacity, m.margin);
  }

  lemma ScenarioF()
    ensures ScenarioModel().F == ["P1", "P2"]
  {
    SortScenario();
    assert Ids([P1, P2], PlanKey) == ["P1", "P2"];
  }

  lemma ScenarioS()
    ensures ScenarioModel().S == ["S"]
  {
    assert Ids([S1], SegmentKey) == ["S"];
  }

  lemma ScenarioMaps()
    ensures ScenarioModel().planOf == map["P1" := P1, "P2" := P2]
    ensures ScenarioModel().segOf == map["S" := S1]
  {
    SortScenario();
    IndexScenarioPlans();
    IndexScenarioSegments();
  }

  /** Prices 10 and 15; the segment buys P1 at 100 - 2 * 10 = 80 units, and P2
      is active although nobody chooses it. */
  function Witness(): Solution
  {
    Solution(
      map["P1" := 10.0, "P2" := 15.0],
      map[("P1", "S") := 1.0, ("P2", "S") := 0.0],
      map["P1" := 1.0, "P2" := 1.0],
      map[("P1", "S") := 80.0, ("P2", "S") := 0.0])
  }

  lemma WitnessSums()
    ensures ChoicesOfSegment(Expected, Witness(), "S") == 1.0
    ensures ChoicesOfPlan(Expected, Witness(), "P1") == 1.0
    ensures ChoicesOfPlan(Expected, Witness(), "P2") == 0.0
    ensures Usage(Expected, Witness().q) == 80.0
  {
    var m, w := Expected, Witness();
    assert PlanUsage(m, w.q, "P1") == 80.0;
    assert PlanUsage(m, w.q, "P2") == 0.0;
  }

  lemma WitnessLinearized()
    ensures Linearized(Expected, Witness(), "P1", "S")
    ensures Linearized(Expected, Witness(), "P2", "S")
  {
    assert DemandOf(Expected, "P1", "S") == Demand(100.0, 2.0);
    assert DemandOf(Expected, "P2", "S") == Demand(80.0, 1.0);
  }

  /** A feasible point in which P2 is active although no segment chooses it:
      activation bounds choices from above but is not forced down by their absence. */
  lemma ActiveWithoutChoice()
    ensures Feasible(ScenarioModel(), Witness())
    ensures Witness().y["P2"] == 1.0 && Witness().x[("P2", "S")] == 0.0
  {
    ScenarioIndexSets();
    WitnessFeasible();
  }

  lemma WitnessFeasible()
    ensures Feasible(Expected, Witness())
  {
    WitnessSums();
    WitnessLinearized();
    var m, w := Expected, Witness();
    assert VariablesDeclared(m, w) by {
      assert PlanVariables(w, "P1") && PlanVariables(w, "P2");
      assert PairVariables(w, ("P1", "S")) && PairVariables(w, ("P2", "S"));
    }
    assert PriceOrdered(m, w, 0);
    assert ActivationLinked(m, w, "P1") && ActivationLinked(m, w, "P2");
    assert SingleChoice(m, w, "S");
  }

  /** At every feasible point: P2 is priced at least 5 above P1, the segment
      chooses exactly one of the two, and the objective is the curve profit of
      the chosen one. */
  lemma ScenarioEveryFeasiblePoint(sol: Solution)
    requires Feasible(ScenarioModel(), sol)
    ensures sol.price["P2"] >= sol.price["P1"] + 5.0
    ensures (sol.x[("P1", "S")] == 1.0) != (sol.x[("P2", "S")] == 1.0)
    ensures sol.x[("P1", "S")] == 1.0 ==>
      Objective(ScenarioModel(), sol) == (sol.price["P1"] - 2.0) * (100.0 - 2.0 * sol.price["P1"])
    ensures sol.x[("P2", "S")] == 1.0 ==>
      Objective(ScenarioModel(), sol) == (sol.price["P2"] - 5.0) * (80.0 - 1.0 * sol.price["P2"])
  {
    ScenarioIndexSets();
    ExpectedEveryFeasiblePoint(sol);
  }

  lemma ExpectedEveryFeasiblePoint(sol: Solution)
    requires Feasible(Expected, sol)
    ensures sol.price["P2"] >= sol.price["P1"] + 5.0
    ensures (sol.x[("P1", "S")] == 1.0) != (sol.x[("P2", "S")] == 1.0)
    ensures sol.x[("P1", "S")] == 1.0 ==>
      Objective(Expected, sol) == (sol.price["P1"] - 2.0) * (100.0 - 2.0 * sol.price["P1"])
    ensures sol.x[("P2", "S")] == 1.0 ==>
      Objective(Expected, sol) == (sol.price["P2"] - 5.0) * (80.0 - 1.0 * sol.price["P2"])
  {
    ExpectedPrices(sol);
    ExpectedChoice(sol);
    ExpectedObjective(sol);
  }

  lemma ExpectedObjective(sol: Solution)
    requires Feasible(Expected, sol)
    ensures sol.x[("P1", "S")] == 1.0 ==>
      Objective(Expected, sol) == (sol.price["P1"] - 2.0) * (100.0 - 2.0 * sol.price["P1"])
    ensures sol.x[("P2", "S")] == 1.0 ==>
      Objective(Expected, sol) == (sol.price["P2"] - 5.0) * (80.0 - 1.0 * sol.price["P2"])
  {
    ExpectedChoice(sol);
    ObjectiveIsChosenProfit(Expected, sol);
    ChosenProfitByCase(sol, sol.x[("P1", "S")] == 1.0);
  }

  /** The reference profit of the scenario, by which plan the segment chose. */
  lemma ChosenProfitByCase(sol: Solution, firstChosen: bool)
    requires ("P1", "S") in sol.x && ("P2", "S") in sol.x && "P1" in sol.price && "P2" in sol.price
    requires firstChosen == (sol.x[("P1", "S")] == 1.0)
    requires (sol.x[("P1", "S")] == 1.0) != (sol.x[("P2", "S")] == 1.0)
    ensures firstChosen ==>
      ChosenProfit(Expected, sol) == (sol.price["P1"] - 2.0) * (100.0 - 2.0 * sol.price["P1"])
    ensures !firstChosen ==>
      ChosenProfit(Expected, sol) == (sol.price["P2"] - 5.0) * (80.0 - 1.0 * sol.price["P2"])
  {
    ScenarioChosenProfit(sol);
  }

  lemma ExpectedPrices(sol: Solution)
    requires Feasible(Expected, sol)
    ensures sol.price["P2"] >= sol.price["P1"] + 5.0
  {
    PriceChain(Expected, sol, 0, 1);
  }

  lemma ExpectedChoice(sol: Solution)
    requires Feasible(Expected, sol)
    ensures ("P1", "S") in sol.x && ("P2", "S") in sol.x
    ensures (sol.x[("P1", "S")] == 1.0) != (sol.x[("P2", "S")] == 1.0)
    ensures ("P1", "S") in sol.q && ("P2", "S") in sol.q && "P1" in sol.price && "P2" in sol.price
  {
    ExactlyOneChoice(Expected, sol, 0);
    QuantityExact(Expected, sol, 0, 0);
    QuantityExact(Expected, sol, 1, 0);
    assert PairVariables(sol, ("P1", "S")) && PairVariables(sol, ("P2", "S"));
  }

  lemma ScenarioChosenProfit(sol: Solution)
    ensures ChosenProfit(Expected, sol) ==
      ChosenTerm(Expected, sol, "P1", "S") + ChosenTerm(Expected, sol, "P2", "S")
    ensures ChosenTerm(Expected, sol, "P1", "S") ==
      if Val(sol.x, ("P1", "S")) == 1.0
      then (Val(sol.price, "P1") - 2.0) * (100.0 - 2.0 * Val(sol.price, "P1")) else 0.0
    ensures ChosenTerm(Expected, sol, "P2", "S") ==
      if Val(sol.x, ("P2", "S")) == 1.0
      then (Val(sol.price, "P2") - 5.0) * (80.0 - 1.0 * Val(sol.price, "P2")) else 0.0
  {
    var m := Expected;
    assert ChosenProfitOfPlan(m, sol, "P1") == ChosenTerm(m, sol, "P1", "S");
    assert ChosenProfitOfPlan(m, sol, "P2") == ChosenTerm(m, sol, "P2", "S");
    assert DemandOf(m, "P1", "S") == Demand(100.0, 2.0);
    assert DemandOf(m, "P2", "S") == Demand(80.0, 1.0);
  }
}
