# Telecom plan pricing: the optimization model and the input tab's demand store

This project models, in Dafny, the two pieces of logic at the core of the
telecom pricing application.

**The pricing program** built by `PricingModel.build_and_solve`. The plans are
stably sorted by data limit. The program then declares:

- a price `p[f]` per plan;
- binary choices `x[f,s]` and activations `y[f]`;
- quantities `q[f,s]`.

It emits five constraint families:

- the big-M linearisation of `q = x·(a − b·p)` with `M = 1e6`;
- activation linking;
- exactly one choice per segment;
- a consecutive price-ordering chain with a margin;
- a capacity bound on `Σ q·data_limit`.

It maximises `Σ (p − cost)·q`. On an optimal status the values are read back
into a result record. `Build` constructs the index sets and lookups.
`Feasible` states every emitted constraint literally. The lemmas say what
EVERY feasible point satisfies, and hence every optimum the solver may return.

The solver is not modelled. It is a function parameter from the built
program to an outcome: an optimal status with values, another status, an
engine error, or an unexpected error. The model assumes
`Extraction.SolverSound` of it: an optimal status comes with a point that
meets every constraint exactly, and the reported objective is that point's
objective. A real solver meets this only within its tolerances (see
"## Left out"). The assumption appears as a requirement of the result lemmas,
never as an axiom.

**The input tab's demand store**. The plans table and the segments table are
sequences of rows of cell texts. The demand store maps a segment's row number
to that segment's demand parameters. Parsing a cell is an oracle
`string -> Option<real>` and rendering a number is an oracle `real -> string`.
The operations modelled are:

- loading;
- adding and removing plan rows and segment rows, including the store's
  re-indexing after a removal;
- editing a demand cell;
- the scrape that returns the plans, the segments and the capacity.

Each is a pure function from one tab state to the next. The invariant
`InputTab.Dense` says that the store has an entry for exactly the rows of the
segments table. It holds initially and every operation preserves it.

Modules (one file each):

- `Entities`: plans, segments, demand curves, and last-wins dictionaries built
  by comprehension.
- `PlanOrder`: the stable sort by data limit.
- `Sums`: finite sums.
- `Formulation`: the program and its feasible points.
- `Extraction`: solving and reading the result.
- `Scenarios`: a two-plan, one-segment instance.
- `Decimal`: the row-number labels `P{n}` and `S{n}`.
- `Keeping`: dropping the rows that do not parse.
- `InputTab`: the tab and its demand store.

Two consequences of the program as written:

- Zero segments do not force plans inactive. The activation constraint only
  bounds the choices from above, so with no choices `y[f]` is free.
  `Scenarios.ActiveWithoutChoice` exhibits a feasible point in which an
  unchosen plan is active.
- Nothing in `build_and_solve` rejects an empty plan list. With segments
  present, no feasible point exists (`Formulation.NoPlansInfeasible`). The
  only guard is the empty-plans check in controllers/app_controller.py:56-58.

## Model

| member | source | states |
|---|---|---|
| `Entities.Ids` | models/optimization_model.py:66-67 | the index list F (plan ids) or S (segment ids) has one id per record, in the records' order |
| `Entities.DemandIn` | models/optimization_model.py:112 | a plan with no entry in a segment's parameters reads as the zero curve a = 0, b = 0 |
| `Entities.IndexBy` | models/optimization_model.py:70-71 | the id dictionary has a key for every element, and each key maps to an element carrying that key |
| `Entities.IndexByLastWins` | models/optimization_model.py:70-71 | where an id repeats, the dictionary holds the last element carrying it |
| `Entities.DistinctKeysIndexed` | models/optimization_model.py:70-71 | with distinct ids, every element is found under its own id |
| `Entities.DistinctIdsPreserved` | models/optimization_model.py:59 | sorting keeps distinct plan ids distinct |
| `PlanOrder.SortByDataLimit` | models/optimization_model.py:59 | the sort yields a permutation of the plans in non-decreasing data-limit order; plans with equal data limits keep their input order (stability) |
| `PlanOrder.InsertStable` | models/optimization_model.py:59 | inserting a plan places it ahead of the plans with its data limit, leaving every other data limit's subsequence as it was |
| `Formulation.Build` | models/optimization_model.py:59-71 | F has one id per plan, with the same multiset of ids; S is the segment ids in order; each lookup maps every id of F and S to an input record carrying that id |
| `Formulation.VariablesDeclared` | models/optimization_model.py:77-102 | definition: a price ≥ 0 and a binary activation per plan of F, a binary choice and a quantity ≥ 0 per pair of F×S |
| `Formulation.Linearized` | models/optimization_model.py:110-124 | definition: the three big-M inequalities of one pair, with the pair's curve read with the zero default |
| `Formulation.ActivationLinked` | models/optimization_model.py:126-128 | definition: a plan's choices over S sum to at most the number of segments times its activation |
| `Formulation.SingleChoice` | models/optimization_model.py:133-134 | definition: a segment's choices over F sum to exactly 1 |
| `Formulation.PriceOrdered` | models/optimization_model.py:140-147 | definition: the price of F[i+1] is at least the price of F[i] plus the margin |
| `Formulation.Usage` | models/optimization_model.py:151-154 | definition: the total usage Σ q·data_limit over F×S |
| `Formulation.Objective` | models/optimization_model.py:175-178 | definition: the objective Σ (price − cost)·q over F×S |
| `Formulation.Feasible` | models/optimization_model.py:77-155 | definition: every declared bound and every emitted constraint family holds, including usage ≤ capacity |
| `Formulation.BuildOrdersByDataLimit` | models/optimization_model.py:57-59 | with distinct plan ids, data limits never decrease along F |
| `Formulation.DemandOf` | models/optimization_model.py:112-114 | the curve of pair (f, s) is the segment's entry for f, or the zero curve when it has none |
| `Formulation.LinearizationCases` | models/optimization_model.py:118-124 | for binary x and q ≥ 0 the three big-M inequalities force q = 0 when x = 0 and q = a − b·p when x = 1 |
| `Formulation.QuantityExact` | models/optimization_model.py:102-124 | at every feasible point an unchosen pair has quantity 0, a chosen pair has exactly its curve quantity, and then b·p ≤ a |
| `Formulation.BigMResidue` | models/optimization_model.py:106-124 | even for an unchosen pair the curve value at the plan's price lies in [−1e6, 1e6] |
| `Formulation.ExactlyOneChoice` | models/optimization_model.py:133-134 | every segment chooses exactly one position of F |
| `Formulation.NoPlansInfeasible` | models/optimization_model.py:133-134 | with no plans and at least one segment no point is feasible |
| `Formulation.ChosenPlanIsActive` | models/optimization_model.py:128 | a plan some segment chooses has y = 1 |
| `Formulation.InactivePlanUnchosen` | models/optimization_model.py:128 | a plan with y = 0 is chosen by no segment |
| `Formulation.PriceChain` | models/optimization_model.py:140-147 | for i ≤ j, the price at F[j] is at least the price at F[i] plus (j − i) margins |
| `Formulation.PriceFloor` | models/optimization_model.py:77-147 | with non-negative prices, the k-th plan of F is priced at least k margins |
| `Formulation.LaterPlanCostsMore` | models/optimization_model.py:140-147 | with a non-negative margin, any later plan in F is priced at least one margin above an earlier one |
| `Formulation.PlanPosition` | models/optimization_model.py:59-66 | every input plan appears in F at the position the stable sort gave it |
| `Formulation.SortedPositions` | models/optimization_model.py:57-59 | in the sorted plans, a strictly smaller data limit comes at an earlier position |
| `Formulation.MoreDataNeverCheaper` | models/optimization_model.py:57-147 | with a non-negative margin, a plan with strictly more data is priced at least one margin above a plan with less, at every feasible point |
| `Formulation.ObjectiveIsChosenProfit` | models/optimization_model.py:175-178 | at every feasible point the objective equals the curve profit (p − cost)·(a − b·p) summed over the chosen pairs only |
| `Formulation.SegmentProfit` | tests/analyze_p3.py:51-59 | a segment's share of the objective is the curve profit of the plan it chose, as the analysis script recomputes it |
| `Formulation.UnchosenEarnsNothing` | models/optimization_model.py:175-178 | a plan a segment did not choose adds no profit for that segment |
| `Formulation.NoSegmentsNoProfit` | models/optimization_model.py:151-178 | with no segments the objective and the usage are 0 |
| `Formulation.PlanUsageBounds` | models/optimization_model.py:151-154 | with positive data limits, a plan's usage is non-negative and bounds each of its pair terms |
| `Formulation.NoCapacityNoQuantity` | models/optimization_model.py:151-155 | with capacity ≤ 0 and positive data limits every feasible quantity is 0 |
| `Formulation.NoSegmentsEveryFeasibleOptimal` | models/optimization_model.py:151-180 | with no segments every feasible point is an optimum of the maximisation, since every objective is 0 |
| `Extraction.Extract` | models/optimization_model.py:185-194 | status "Optimal", the solver's objective, prices and activations keyed exactly by F, quantities and choices keyed exactly by F×S, each holding its variable's value, and the total usage Σ q·data_limit of the reported quantities |
| `Extraction.BuildAndSolve` | models/optimization_model.py:52-205 | no result without the solver library; otherwise a result exactly when the solve finished with an optimal status, never on another status or an error |
| `Extraction.ResultWithinCapacity` | models/optimization_model.py:151-193 | the reported total usage is at most the capacity |
| `Extraction.ResultPricesOrdered` | models/optimization_model.py:140-189 | reported prices of consecutive plans of F differ by at least the margin |
| `Extraction.ExtractedPricesOrdered` | models/optimization_model.py:140-189 | in a result read from a feasible point, consecutive prices of F differ by at least the margin |
| `Extraction.ExtractedSegmentChooses` | models/optimization_model.py:133-191 | in a result read from a feasible point, each segment's reported choices hold exactly one 1: some plan is chosen and no later plan is chosen too |
| `Extraction.ExtractedQuantity` | models/optimization_model.py:118-191 | in a result read from a feasible point, a pair's reported quantity is 0 when unchosen and its curve quantity at the reported price when chosen |
| `Extraction.ResultChoicesAndQuantities` | models/optimization_model.py:185-198 | the same two facts about any result build_and_solve returns from a sound solver |
| `Extraction.ResultObjectiveIsChosenProfit` | models/optimization_model.py:175-188 | the reported objective is the curve profit over the chosen pairs |
| `Extraction.ResultWithoutSegments` | models/optimization_model.py:151-193 | with no segments a reported result has objective 0 and total usage 0 |
| `Scenarios.ScenarioIndexSets` | models/optimization_model.py:59-71 | two plans given as 10 GB then 1 GB are laid out with the 1 GB plan first |
| `Scenarios.ActiveWithoutChoice` | models/optimization_model.py:128 | a concrete feasible point where a plan no segment chooses is active |
| `Scenarios.ScenarioEveryFeasiblePoint` | models/optimization_model.py:118-180 | in the two-plan instance every feasible point prices the larger plan at least 5 above the smaller, picks exactly one, and earns that plan's curve profit |
| `Decimal.NatToString` | views/input_tab.py:140 | a row number renders as decimal digits without leading zeros |
| `Decimal.NatToStringRoundTrip` | views/input_tab.py:140 | reading back a rendered row number gives the number |
| `Decimal.NatToStringInjective` | views/input_tab.py:159 | distinct row numbers give distinct default labels |
| `Keeping.KeptInOrder` | views/input_tab.py:246-256 | the scrape keeps exactly the rows that parse, each with its value, in increasing row order |
| `Keeping.KeptAllSome` | views/input_tab.py:259-279 | when every row parses nothing is dropped |
| `Keeping.KeptAppend` | views/input_tab.py:246-256 | the rows kept from a table split in two are those kept from each part, in order |
| `InputTab.StoredParams` | views/input_tab.py:267 | a row without a store entry reads as the empty dictionary |
| `InputTab.ParamsView` | views/input_tab.py:192 | the parameters each segment row is shown with, one per row |
| `InputTab.Clamp` | views/input_tab.py:23-26 | the spin box keeps values in [0, 1e9], leaving in-range values unchanged and clamping others to the nearer bound |
| `InputTab.InitialTabDense` | views/input_tab.py:13-26 | the new tab's store is empty, matching its empty table, and its capacity is 100000 |
| `InputTab.LoadData` | views/input_tab.py:100-126 | the capacity is clamped, both tables are replaced row by row, and the store holds each input segment's parameters at its row and nothing else |
| `InputTab.AddPlanRow` | views/input_tab.py:130-143 | a row "P{n+1}", "New Plan", "10.0", "5.0" is appended; the segments and the store are untouched |
| `InputTab.RemovePlanRow` | views/input_tab.py:145-148 | no selection changes nothing; otherwise exactly the selected plan row is removed, the others keep their order, and the store is untouched |
| `InputTab.AddSegmentRow` | views/input_tab.py:156-162 | a row "S{n+1}", "New Segment", "1000" is appended and its store entry set to empty, overwriting any stale entry; every other entry and row keeps its parameters |
| `InputTab.Reindexed` | views/input_tab.py:173-178 | the re-indexed store has keys only below the new row count; a row above the removed one keeps its own entry (or none), and a row at or after it takes the entry of the row that followed it (or none) |
| `InputTab.RebuildStore` | views/input_tab.py:173-178 | the rebuild loop gives remaining row r the entry of old row r (r < cur) or r + 1 (r ≥ cur), and gives keys only to rows below the new row count whose source has an entry |
| `InputTab.RemoveSegmentRow` | views/input_tab.py:164-179 | no selection changes nothing; otherwise the selected row is removed, and the store is re-indexed when that row has an entry and left exactly as it was when it has none |
| `InputTab.RemoveSegmentRowAligned` | views/input_tab.py:164-178 | after removing a row with an entry every remaining row keeps its own parameters: the view loses exactly the removed row's entry |
| `InputTab.RemoveSegmentRowDense` | views/input_tab.py:164-178 | removal preserves the dense store, so from a dense store the un-re-indexed branch is never taken |
| `InputTab.RemoveUnstoredRowShifts` | views/input_tab.py:168-169 | in a sparse store, removing a row without an entry leaves the row below it without its parameters |
| `InputTab.CellValue` | views/input_tab.py:231-234 | an edited cell's number, 0.0 when the text does not parse |
| `InputTab.EditCurve` | views/input_tab.py:236-239 | column 1 sets only a, column 2 sets only b, other columns change nothing |
| `InputTab.EditParams` | views/input_tab.py:228-239 | the edited plan gets an entry, created as the zero curve if missing; other plans' entries are unchanged |
| `InputTab.SaveDemandParam` | views/input_tab.py:213-239 | no selection changes nothing; otherwise the selected row's entry is created if missing and only the edited plan's edited field changes; other rows, the tables and the capacity are unchanged |
| `InputTab.SaveDemandParamLastWins` | views/input_tab.py:236-239 | of two edits of one cell the later is what the store keeps |
| `InputTab.EditParamsCommute` | views/input_tab.py:228-239 | edits of different cells of one segment's parameters commute |
| `InputTab.SaveDemandParamCommute` | views/input_tab.py:213-239 | edits of different cells commute |
| `InputTab.WithDefaults` | views/input_tab.py:269-275 | every plan id gets an entry; existing entries are untouched; new ones are the zero curve, so the curve read for any plan is unchanged |
| `InputTab.WithDefaultsIdempotent` | views/input_tab.py:269-275 | filling defaults a second time changes nothing |
| `InputTab.PlanOfRow` | views/input_tab.py:247-256 | a plan row yields a plan exactly when both its data limit and its cost parse |
| `InputTab.SegmentOfRow` | views/input_tab.py:260-268 | a segment row yields a segment exactly when its size parses, carrying the stored parameters with defaults filled in |
| `InputTab.ScrapedStore` | views/input_tab.py:264-275 | after the scrape the store has the same keys and every entry reads the same curve for every plan; the entry of a row whose size does not parse, and any key past the last row, is left exactly as it was |
| `InputTab.GetData` | views/input_tab.py:243-282 | plans and segments of the rows that parse, in table order; every returned segment has an entry for every returned plan id; the capacity is the spin box's; the tables are unchanged, every store entry reads the same curves, entries of rows whose size does not parse are untouched, and the store stays dense |
| `InputTab.EverySegmentHasEveryPlan` | views/input_tab.py:269-275 | every scraped segment has a parameters entry for every scraped plan id |
| `InputTab.ScrapedParamsAreStored` | views/input_tab.py:267-275 | a returned segment's parameters are its row's stored entry as it stands after the scrape |
| `InputTab.LoadThenGetData` | views/input_tab.py:100-282 | when the loaded numbers, once rendered, parse back to themselves, scraping a loaded tab returns the loaded plans, the loaded segments with defaults filled in, and the clamped capacity |
| `InputTab.AddedPlanScraped` | views/input_tab.py:139-143 | a default plan row is scraped as the last plan, with data limit 10 and cost 5 |
| `InputTab.RemovedPlanScraped` | views/input_tab.py:145-148 | removing a plan row drops exactly that row's plan, if it parsed, from the scrape; the plans of the other rows are scraped as before and in the same order |

## Left out

- The solve itself: `m.optimize`, status codes other than optimal, and the `.X`/`objVal` reads are outside the model. The solver is a function parameter and its soundness a hypothesis. The result lemmas take any optimum the solver returns.
- The licence probe `check_solver` (models/optimization_model.py:22-34): the library's availability is a boolean parameter of `Extraction.BuildAndSolve`.
- Logging, the `OutputFlag` verbosity parameter, and the unused `M_price` (models/optimization_model.py:63, 105): none affects the program or the result.
- Segment `size`: it is carried through the scrape but enters no constraint and not the objective.
- Solver tolerances: `Extraction.SolverSound` assumes the returned point meets every constraint exactly and that the binaries are exactly 0 or 1. The solver guarantees this only within its feasibility and integrality tolerances, and the result views absorb the difference with `> 0.5` thresholds (views/results_tab.py:66). With M = 1e6, an x of 1e-5 allows q up to 10 on an unchosen pair. The result lemmas therefore describe an exact optimum.
- Floating point: all numbers are exact reals. Python's `float()` parsing and `str()` rendering are the oracles `parse` and `render`.
- Duplicate plan or segment ids: the solver library rejects duplicate variable keys by raising, which the program turns into no result. The model lets F and S repeat ids and takes the last-wins lookups of the dictionary comprehensions. Its lemmas about every feasible point therefore hold in that case too.
- The spin box's rounding to two decimals: only its range [0, 1e9] is modelled.
- `load_demand_params` (views/input_tab.py:181-211): it only displays the selected row's parameters, and its store read is `InputTab.StoredParams`.
- `on_plan_changed` and `get_capacity` (views/input_tab.py:150-152, 284-285): the first does nothing and the second reads the capacity. Direct edits of plan and segment cells are not separate operations: any row text is a possible tab state.
- The widget layout, signals and signal blocking, and message boxes: these are UI glue. The table's current row is an operation parameter, −1 for no selection.
- Dictionary aliasing beyond the scrape: `load_data` stores the caller's parameter dictionaries and the scrape hands out the stored ones, so later edits would show through both. The model copies values. It does model the scrape's own in-place filling of defaults, through `InputTab.ScrapedStore`.
- A table cell without an item (an attribute error rather than a parse error): every row the tab creates has all its items.
- The worker thread and the empty-plans guard in controllers/app_controller.py:56-58: these are concurrency and UI glue.
- The charts, the demo data generator, the stylesheet loading in main.py, and the print-only test scripts: none is part of the core.
