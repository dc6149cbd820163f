/** The input tab's data: a plans table and a segments table held as rows of
    cell texts, the capacity spin box, and the demand store that maps a
    segment's ROW NUMBER to that segment's demand parameters. The store is
    keyed by position, not by segment identifier, so every operation that
    moves rows must move the store's keys with them. Parsing a cell is an
    oracle `parse` (None where the text is not a number) and rendering a
    number as cell text an oracle `render`. */
module InputTab {
  import opened Entities
  import opened Keeping
  import opened Decimal

  type Params = map<PlanId, Demand>

  /** Row number -> demand parameters of the segment shown in that row. */
  type DemandStore = map<int, Params>

  datatype PlanRow = PlanRow(id: string, name: string, dataLimit: string, cost: string)
  datatype SegmentRow = SegmentRow(id: string, name: string, size: string)

  datatype Tab = Tab(capacity: real, planRows: seq<PlanRow>, segmentRows: seq<SegmentRow>, demand: DemandStore)

  /** What a scrape of the tab hands to the optimizer. */
  datatype TabData = TabData(plans: seq<Plan>, segments: seq<Segment>, capacity: real)

  /** A scrape's result, and the tab after it: the scrape fills defaults into
      the stored parameter dictionaries it hands out. */
  datatype Scrape = Scrape(data: TabData, after: Tab)

  const InitialCapacity: real := 100000.0
  const MaxCapacity: real := 1000000000.0

  /** A freshly opened tab: empty tables, an empty store. */
  const InitialTab: Tab := Tab(InitialCapacity, [], [], map[])

  /** The store has an entry for exactly the rows of the segments table. */
  ghost predicate Dense(tab: Tab)
  {
    forall k :: k in tab.demand <==> 0 <= k < |tab.segmentRows|
  }

  /** The parameters row r reads from the store: none stored reads as none. */
  function StoredParams(store: DemandStore, r: int): (p: Params)
    ensures r in store ==> p == store[r]
    ensures r !in store ==> p == map[]
  {
    if r in store then store[r] else map[]
  }

  /** The parameters each row of the segments table is shown with, in row order. */
  function ParamsView(tab: Tab): (v: seq<Params>)
    ensures |v| == |tab.segmentRows|
    ensures forall r :: 0 <= r < |v| ==> v[r] == StoredParams(tab.demand, r)
  {
    seq(|tab.segmentRows|, r requires 0 <= r < |tab.segmentRows| => StoredParams(tab.demand, r))
  }

  /** The spin box's range: values below 0 read as 0, values above 1e9 as 1e9. */
  function Clamp(v: real): (c: real)
    ensures 0.0 <= c <= MaxCapacity
    ensures 0.0 <= v <= MaxCapacity ==> c == v
    ensures v < 0.0 ==> c == 0.0
    ensures v > MaxCapacity ==> c == MaxCapacity
  {
    if v < 0.0 then 0.0 else if v > MaxCapacity then MaxCapacity else v
  }

  lemma InitialTabDense()
    ensures Dense(InitialTab) && InitialTab.capacity == InitialCapacity
  {
  }

  // ---- Loading ----

  function PlanRowOf(p: Plan, render: real -> string): PlanRow
  {
    PlanRow(p.id, p.name, render(p.dataLimit), render(p.cost))
  }

  function SegmentRowOf(s: Segment, render: real -> string): SegmentRow
  {
    SegmentRow(s.id, s.name, render(s.size))
  }

  /** load_data: sets the capacity, replaces both tables, and replaces the
      store with one entry per input segment, at that segment's row. */
  function LoadData(tab: Tab, plans: seq<Plan>, segs: seq<Segment>, capacity: real,
                    render: real -> string): (r: Tab)
    ensures r.capacity == Clamp(capacity)
    ensures |r.planRows| == |plans| && |r.segmentRows| == |segs|
    ensures forall i :: 0 <= i < |plans| ==> r.planRows[i] == PlanRowOf(plans[i], render)
    ensures forall i :: 0 <= i < |segs| ==> r.segmentRows[i] == SegmentRowOf(segs[i], render)
    ensures Dense(r)
    ensures forall i :: 0 <= i < |segs| ==> r.demand[i] == segs[i].params
  {
    Tab(Clamp(capacity),
        seq(|plans|, i requires 0 <= i < |plans| => PlanRowOf(plans[i], render)),
        seq(|segs|, i requires 0 <= i < |segs| => SegmentRowOf(segs[i], render)),
        map i | 0 <= i < |segs| :: segs[i].params)
  }

  // ---- Plans table ----

  /** add_plan_row without data: a default plan labelled by its 1-based row number. */
  function AddPlanRow(tab: Tab): (r: Tab)
    ensures r.planRows == tab.planRows + [PlanRow("P" + NatToString(|tab.planRows| + 1), "New Plan", "10.0", "5.0")]
    ensures r.segmentRows == tab.segmentRows && r.demand == tab.demand && r.capacity == tab.capacity
    ensures Dense(tab) ==> Dense(r)
  {
    var n := |tab.planRows|;
    tab.(planRows := tab.planRows + [PlanRow("P" + NatToString(n + 1), "New Plan", "10.0", "5.0")])
  }

  /** remove_plan_row: removes the selected row (cur < 0: no selection). The
      store is keyed by plan identifier inside, so it is left as it is. */
  function RemovePlanRow(tab: Tab, cur: int): (r: Tab)
    requires cur < |tab.planRows|
    ensures cur < 0 ==> r == tab
    ensures cur >= 0 ==> |r.planRows| == |tab.planRows| - 1
    ensures cur >= 0 ==> forall i :: 0 <= i < |r.planRows| ==>
      r.planRows[i] == tab.planRows[if i < cur then i else i + 1]
    ensures r.segmentRows == tab.segmentRows && r.demand == tab.demand && r.capacity == tab.capacity
  {
    if cur < 0 then tab
    else tab.(planRows := tab.planRows[..cur] + tab.planRows[cur + 1..])
  }

  // ---- Segments table ----

  /** add_segment_row: a default segment in a new last row, whose store entry
      is set to the empty dictionary, overwriting anything stale at that key. */
  function AddSegmentRow(tab: Tab): (r: Tab)
    ensures r.segmentRows == tab.segmentRows + [SegmentRow("S" + NatToString(|tab.segmentRows| + 1), "New Segment", "1000")]
    ensures r.demand.Keys == tab.demand.Keys + {|tab.segmentRows|}
    ensures r.demand[|tab.segmentRows|] == map[]
    ensures forall k :: k in tab.demand && k != |tab.segmentRows| ==> r.demand[k] == tab.demand[k]
    ensures r.planRows == tab.planRows && r.capacity == tab.capacity
    ensures ParamsView(r) == ParamsView(tab) + [map[]]
    ensures Dense(tab) ==> Dense(r)
  {
    var n := |tab.segmentRows|;
    var r := tab.(segmentRows := tab.segmentRows + [SegmentRow("S" + NatToString(n + 1), "New Segment", "1000")],
                  demand := tab.demand[n := map[]]);
    assert forall i :: 0 <= i < n ==> StoredParams(r.demand, i) == StoredParams(tab.demand, i);
    r
  }

  /** The row a remaining row had before row cur was removed. */
  function Src(r: int, cur: int): int
  {
    if r < cur then r else r + 1
  }

  /** The store rebuilt after the removal of row cur: row r of the shorter
      table takes the entry of old row Src(r, cur), if there is one. */
  function Reindexed(store: DemandStore, cur: int, rowsAfter: int): (r: DemandStore)
    ensures forall k :: k in r ==> 0 <= k < rowsAfter
    ensures forall k :: 0 <= k < rowsAfter && k < cur ==>
      (k in r <==> k in store) && (k in r ==> r[k] == store[k])
    ensures forall k :: 0 <= k < rowsAfter && cur <= k ==>
      (k in r <==> k + 1 in store) && (k in r ==> r[k] == store[k + 1])
  {
    map r | 0 <= r < rowsAfter && Src(r, cur) in store :: store[Src(r, cur)]
  }

  /** The rebuild loop as written: for each remaining row, copy the entry of
      the row it came from. */
  method RebuildStore(store: DemandStore, cur: int, rowsAfter: int) returns (r: DemandStore)
    ensures forall k :: k in r <==> 0 <= k < rowsAfter && Src(k, cur) in store
    ensures forall k :: k in r ==> r[k] == store[Src(k, cur)]
    ensures r == Reindexed(store, cur, rowsAfter)
  {
    r := map[];
    var k := 0;
    while k < rowsAfter
      invariant 0 <= k && (k <= rowsAfter || k == 0)
      invariant forall j :: j in r <==> 0 <= j < k && Src(j, cur) in store
      invariant forall j :: j in r ==> r[j] == store[Src(j, cur)]
      decreases rowsAfter - k
    {
      var oldRow := if k < cur then k else k + 1;
      if oldRow in store {
        r := r[k := store[oldRow]];
      }
      k := k + 1;
    }
  }

  /** No remaining row takes its entry from the removed row, so dropping that
      entry first does not change the re-indexed store's contents. */
  lemma ReindexedSkipsRemoved(store: DemandStore, cur: int, rowsAfter: int)
    ensures var r := Reindexed(store - {cur}, cur, rowsAfter);
      && (forall k :: k in r <==> 0 <= k < rowsAfter && Src(k, cur) in store)
      && (forall k :: k in r ==> r[k] == store[Src(k, cur)])
  {
    assert forall k :: Src(k, cur) != cur;
  }

  /** remove_segment_row: removes the selected row (cur < 0: no selection).
      Only when the row has a store entry is the store re-indexed; otherwise
      the store is left exactly as it was. */
  function RemoveSegmentRow(tab: Tab, cur: int): (r: Tab)
    requires cur < |tab.segmentRows|
    ensures cur < 0 ==> r == tab
    ensures cur >= 0 ==> |r.segmentRows| == |tab.segmentRows| - 1
    ensures cur >= 0 ==> forall i :: 0 <= i < |r.segmentRows| ==>
      r.segmentRows[i] == tab.segmentRows[Src(i, cur)]
    ensures cur >= 0 && cur !in tab.demand ==> r.demand == tab.demand
    ensures cur >= 0 && cur in tab.demand ==>
      forall k :: k in r.demand <==> 0 <= k < |r.segmentRows| && Src(k, cur) in tab.demand
    ensures cur >= 0 && cur in tab.demand ==>
      forall k :: k in r.demand ==> r.demand[k] == tab.demand[Src(k, cur)]
    ensures r.planRows == tab.planRows && r.capacity == tab.capacity
  {
    if cur < 0 then tab
    else
      var rows := tab.segmentRows[..cur] + tab.segmentRows[cur + 1..];
      if cur in tab.demand then
        ReindexedSkipsRemoved(tab.demand, cur, |rows|);
        tab.(segmentRows := rows, demand := Reindexed(tab.demand - {cur}, cur, |rows|))
      else
        tab.(segmentRows := rows)
  }

  /** Removing a row that has a store entry keeps every remaining row with
      its own parameters: the view loses exactly the removed row's entry. */
  lemma RemoveSegmentRowAligned(tab: Tab, cur: int)
    requires 0 <= cur < |tab.segmentRows| && cur in tab.demand
    ensures var r := RemoveSegmentRow(tab, cur);
      && r.segmentRows == tab.segmentRows[..cur] + tab.segmentRows[cur + 1..]
      && ParamsView(r) == ParamsView(tab)[..cur] + ParamsView(tab)[cur + 1..]
  {
    var r := RemoveSegmentRow(tab, cur);
    var v, w := ParamsView(tab), ParamsView(r);
    var wanted := v[..cur] + v[cur + 1..];
    assert |w| == |wanted|;
    forall i | 0 <= i < |w| ensures w[i] == wanted[i] {
      assert Src(i, cur) != cur;
      if Src(i, cur) in tab.demand {
        assert i in r.demand;
      }
    }
  }

  /** The store stays dense under removal; in particular, from a dense store
      the branch that leaves the store un-re-indexed is never taken. */
  lemma RemoveSegmentRowDense(tab: Tab, cur: int)
    requires Dense(tab) && cur < |tab.segmentRows|
    ensures cur >= 0 ==> cur in tab.demand
    ensures Dense(RemoveSegmentRow(tab, cur))
  {
    var r := RemoveSegmentRow(tab, cur);
    if cur >= 0 {
      forall k | 0 <= k < |r.segmentRows| ensures k in r.demand {
        assert Src(k, cur) < |tab.segmentRows|;
      }
    }
  }

  /** Without a store entry for the removed row, the rows below it are shown
      with the parameters of the rows they replaced: two rows, an entry only
      for the second, and removing the first leaves the remaining row (the
      old second) without its parameters. */
  lemma RemoveUnstoredRowShifts(a: SegmentRow, b: SegmentRow, p: Params)
    requires p != map[]
    ensures var tab := Tab(InitialCapacity, [], [a, b], map[1 := p]);
      var r := RemoveSegmentRow(tab, 0);
      && r.segmentRows == [b]
      && ParamsView(tab)[1] == p
      && ParamsView(r)[0] == map[]
  {
    var tab := Tab(InitialCapacity, [], [a, b], map[1 := p]);
    var r := RemoveSegmentRow(tab, 0);
    assert 0 !in tab.demand;
    assert r.demand == map[1 := p];
    assert [a, b][1..] == [b];
  }

  // ---- Demand cells ----

  /** The number a cell's text gives, 0.0 where it is not a number. */
  function CellValue(text: string, parse: string -> Option<real>): (v: real)
    ensures parse(text).Some? ==> v == parse(text).value
    ensures parse(text).None? ==> v == 0.0
  {
    match parse(text)
    case Some(x) => x
    case None => 0.0
  }

  /** The curve after editing column col of its row: column 1 is the
      intercept a, column 2 the slope b, any other column changes nothing. */
  function EditCurve(d: Demand, col: int, v: real): (e: Demand)
    ensures col == 1 ==> e == Demand(v, d.b)
    ensures col == 2 ==> e == Demand(d.a, v)
    ensures col != 1 && col != 2 ==> e == d
  {
    if col == 1 then d.(a := v) else if col == 2 then d.(b := v) else d
  }

  /** A segment's parameters after the cell (pid, col) is set to v: a missing
      plan entry is first created as the zero curve. */
  function EditParams(params: Params, pid: PlanId, col: int, v: real): (r: Params)
    ensures r.Keys == params.Keys + {pid}
    ensures r[pid] == EditCurve(DemandIn(params, pid), col, v)
    ensures forall f :: f in params && f != pid ==> r[f] == params[f]
  {
    params[pid := EditCurve(DemandIn(params, pid), col, v)]
  }

  /** save_demand_params: the cell (pid, col) of the demand table of the
      selected segment row cur was edited to text. A missing segment entry is
      first created as the empty dictionary. */
  function SaveDemandParam(tab: Tab, cur: int, pid: PlanId, col: int, text: string,
                           parse: string -> Option<real>): (r: Tab)
    ensures cur < 0 ==> r == tab
    ensures cur >= 0 ==> r.demand.Keys == tab.demand.Keys + {cur}
    ensures cur >= 0 ==> r.demand[cur].Keys == StoredParams(tab.demand, cur).Keys + {pid}
    ensures cur >= 0 ==>
      r.demand[cur][pid] == EditCurve(DemandIn(StoredParams(tab.demand, cur), pid), col, CellValue(text, parse))
    ensures cur >= 0 ==> forall f :: f in StoredParams(tab.demand, cur) && f != pid ==>
      r.demand[cur][f] == StoredParams(tab.demand, cur)[f]
    ensures forall k :: k in tab.demand && k != cur ==> r.demand[k] == tab.demand[k]
    ensures r.planRows == tab.planRows && r.segmentRows == tab.segmentRows && r.capacity == tab.capacity
    ensures Dense(tab) && cur < |tab.segmentRows| ==> Dense(r)
  {
    if cur < 0 then tab
    else tab.(demand := tab.demand[cur := EditParams(StoredParams(tab.demand, cur), pid, col, CellValue(text, parse))])
  }

  /** Of two edits of the same cell, the later one is what the store keeps. */
  lemma SaveDemandParamLastWins(tab: Tab, cur: int, pid: PlanId, col: int, t1: string, t2: string,
                                parse: string -> Option<real>)
    requires cur >= 0 && (col == 1 || col == 2)
    ensures SaveDemandParam(SaveDemandParam(tab, cur, pid, col, t1, parse), cur, pid, col, t2, parse)
         == SaveDemandParam(tab, cur, pid, col, t2, parse)
  {
    var once := SaveDemandParam(tab, cur, pid, col, t2, parse);
    var twice := SaveDemandParam(SaveDemandParam(tab, cur, pid, col, t1, parse), cur, pid, col, t2, parse);
    assert twice.demand[cur] == once.demand[cur];
    assert twice.demand == once.demand;
  }

  /** Two edits of different cells of one segment's parameters commute. */
  lemma EditParamsCommute(params: Params, pid1: PlanId, col1: int, v1: real, pid2: PlanId, col2: int, v2: real)
    requires pid1 != pid2 || (col1 != col2 && col1 in {1, 2} && col2 in {1, 2})
    ensures EditParams(EditParams(params, pid1, col1, v1), pid2, col2, v2)
         == EditParams(EditParams(params, pid2, col2, v2), pid1, col1, v1)
  {
    var ab := EditParams(EditParams(params, pid1, col1, v1), pid2, col2, v2);
    var ba := EditParams(EditParams(params, pid2, col2, v2), pid1, col1, v1);
    assert ab[pid1] == ba[pid1] && ab[pid2] == ba[pid2];
    assert ab.Keys == ba.Keys;
  }

  /** Edits of different cells do not interfere: their order does not matter. */
  lemma SaveDemandParamCommute(tab: Tab, cur1: int, pid1: PlanId, col1: int, t1: string,
                               cur2: int, pid2: PlanId, col2: int, t2: string, parse: string -> Option<real>)
    requires cur1 >= 0 && cur2 >= 0
    requires cur1 != cur2 || pid1 != pid2 || (col1 != col2 && col1 in {1, 2} && col2 in {1, 2})
    ensures SaveDemandParam(SaveDemandParam(tab, cur1, pid1, col1, t1, parse), cur2, pid2, col2, t2, parse)
         == SaveDemandParam(SaveDemandParam(tab, cur2, pid2, col2, t2, parse), cur1, pid1, col1, t1, parse)
  {
    var v1, v2 := CellValue(t1, parse), CellValue(t2, parse);
    var ab := SaveDemandParam(SaveDemandParam(tab, cur1, pid1, col1, t1, parse), cur2, pid2, col2, t2, parse);
    var ba := SaveDemandParam(SaveDemandParam(tab, cur2, pid2, col2, t2, parse), cur1, pid1, col1, t1, parse);
    if cur1 == cur2 {
      var p := StoredParams(tab.demand, cur1);
      EditParamsCommute(p, pid1, col1, v1, pid2, col2, v2);
      assert ab.demand == tab.demand[cur1 := EditParams(EditParams(p, pid1, col1, v1), pid2, col2, v2)];
      assert ba.demand == tab.demand[cur1 := EditParams(EditParams(p, pid2, col2, v2), pid1, col1, v1)];
    } else {
      var e1 := EditParams(StoredParams(tab.demand, cur1), pid1, col1, v1);
      var e2 := EditParams(StoredParams(tab.demand, cur2), pid2, col2, v2);
      assert ab.demand == tab.demand[cur1 := e1][cur2 := e2];
      assert ba.demand == tab.demand[cur2 := e2][cur1 := e1];
    }
  }

  // ---- Scrape ----

  /** Every plan identifier gets an entry; entries already present are kept.
      Identifiers are visited in table order, as the scrape's loop does. */
  function WithDefaults(params: Params, pids: seq<PlanId>): (r: Params)
    ensures r.Keys == params.Keys + (set i | 0 <= i < |pids| :: pids[i])
    ensures forall f :: f in params ==> r[f] == params[f]
    ensures forall f :: f in r && f !in params ==> r[f] == NoDemand
    ensures forall f :: DemandIn(r, f) == DemandIn(params, f)
    decreases |pids|
  {
    if |pids| == 0 then params
    else
      var init := pids[..|pids| - 1];
      assert forall i :: 0 <= i < |pids| - 1 ==> init[i] == pids[i];
      var p := WithDefaults(params, init);
      var pid := pids[|pids| - 1];
      if pid in p then p else p[pid := NoDemand]
  }

  /** Filling defaults twice fills nothing more. */
  lemma WithDefaultsIdempotent(params: Params, pids: seq<PlanId>)
    ensures WithDefaults(WithDefaults(params, pids), pids) == WithDefaults(params, pids)
  {
    var once := WithDefaults(params, pids);
    var twice := WithDefaults(once, pids);
    assert twice.Keys == once.Keys;
  }

  /** A plan row makes a plan exactly when its data limit and cost both parse. */
  function PlanOfRow(row: PlanRow, parse: string -> Option<real>): (p: Option<Plan>)
    ensures p.Some? <==> parse(row.dataLimit).Some? && parse(row.cost).Some?
    ensures p.Some? ==> p.value == Plan(row.id, row.name, parse(row.dataLimit).value, parse(row.cost).value)
  {
    match parse(row.dataLimit)
    case None => None
    case Some(limit) =>
      match parse(row.cost)
      case None => None
      case Some(cost) => Some(Plan(row.id, row.name, limit, cost))
  }

  /** A segment row makes a segment exactly when its size parses; its
      parameters are the stored ones with every plan identifier defaulted. */
  function SegmentOfRow(row: SegmentRow, stored: Params, pids: seq<PlanId>,
                        parse: string -> Option<real>): (s: Option<Segment>)
    ensures s.Some? <==> parse(row.size).Some?
    ensures s.Some? ==> s.value == Segment(row.id, row.name, parse(row.size).value, WithDefaults(stored, pids))
  {
    match parse(row.size)
    case None => None
    case Some(size) => Some(Segment(row.id, row.name, size, WithDefaults(stored, pids)))
  }

  function PlanCandidates(tab: Tab, parse: string -> Option<real>): (c: seq<Option<Plan>>)
    ensures |c| == |tab.planRows|
    ensures forall i :: 0 <= i < |c| ==> c[i] == PlanOfRow(tab.planRows[i], parse)
  {
    seq(|tab.planRows|, i requires 0 <= i < |tab.planRows| => PlanOfRow(tab.planRows[i], parse))
  }

  function SegmentCandidates(tab: Tab, pids: seq<PlanId>, parse: string -> Option<real>): (c: seq<Option<Segment>>)
    ensures |c| == |tab.segmentRows|
    ensures forall i :: 0 <= i < |c| ==>
      c[i] == SegmentOfRow(tab.segmentRows[i], StoredParams(tab.demand, i), pids, parse)
  {
    seq(|tab.segmentRows|, i requires 0 <= i < |tab.segmentRows| =>
      SegmentOfRow(tab.segmentRows[i], StoredParams(tab.demand, i), pids, parse))
  }

  /** The store after a scrape: the entry of every row whose segment was
      returned has had its defaults filled in (the returned dictionary is
      the stored one); all other entries are as they were. */
  function ScrapedStore(tab: Tab, pids: seq<PlanId>, parse: string -> Option<real>): (s: DemandStore)
    ensures s.Keys == tab.demand.Keys
    ensures forall k :: k in s ==> forall f :: DemandIn(s[k], f) == DemandIn(tab.demand[k], f)
    ensures forall k :: k in tab.demand && !(0 <= k < |tab.segmentRows| && parse(tab.segmentRows[k].size).Some?) ==>
      s[k] == tab.demand[k]
  {
    map k | k in tab.demand ::
      if 0 <= k < |tab.segmentRows| && parse(tab.segmentRows[k].size).Some?
      then WithDefaults(tab.demand[k], pids) else tab.demand[k]
  }

  /** get_data: the plans of the rows that parse, in table order; the
      segments likewise, each with an entry for every returned plan; the
      spin box's capacity. */
  function GetData(tab: Tab, parse: string -> Option<real>): (r: Scrape)
    ensures KeptAt(PlanCandidates(tab, parse), r.data.plans, KeptPositions(PlanCandidates(tab, parse)))
    ensures var pids := Ids(r.data.plans, PlanKey);
      KeptAt(SegmentCandidates(tab, pids, parse), r.data.segments, KeptPositions(SegmentCandidates(tab, pids, parse)))
    ensures forall j, i :: 0 <= j < |r.data.segments| && 0 <= i < |r.data.plans| ==>
      r.data.plans[i].id in r.data.segments[j].params
    ensures r.data.capacity == tab.capacity
    ensures r.after.planRows == tab.planRows && r.after.segmentRows == tab.segmentRows
    ensures r.after.capacity == tab.capacity
    ensures r.after.demand.Keys == tab.demand.Keys
    ensures forall k :: k in r.after.demand ==> forall f :: DemandIn(r.after.demand[k], f) == DemandIn(tab.demand[k], f)
    ensures forall k :: k in tab.demand && !(0 <= k < |tab.segmentRows| && parse(tab.segmentRows[k].size).Some?) ==>
      r.after.demand[k] == tab.demand[k]
    ensures Dense(tab) ==> Dense(r.after)
  {
    var plans := Kept(PlanCandidates(tab, parse));
    KeptInOrder(PlanCandidates(tab, parse));
    var pids := Ids(plans, PlanKey);
    var cands := SegmentCandidates(tab, pids, parse);
    var segs := Kept(cands);
    KeptInOrder(cands);
    EverySegmentHasEveryPlan(cands, segs, KeptPositions(cands), plans, tab, parse);
    Scrape(TabData(plans, segs, tab.capacity), tab.(demand := ScrapedStore(tab, pids, parse)))
  }

  lemma EverySegmentHasEveryPlan(cands: seq<Option<Segment>>, segs: seq<Segment>, pos: seq<int>,
                                 plans: seq<Plan>, tab: Tab, parse: string -> Option<real>)
    requires cands == SegmentCandidates(tab, Ids(plans, PlanKey), parse)
    requires KeptAt(cands, segs, pos)
    ensures forall j, i :: 0 <= j < |segs| && 0 <= i < |plans| ==> plans[i].id in segs[j].params
  {
    var pids := Ids(plans, PlanKey);
    forall j, i | 0 <= j < |segs| && 0 <= i < |plans| ensures plans[i].id in segs[j].params {
      var k := pos[j];
      assert cands[k] == Some(segs[j]);
      assert segs[j].params == WithDefaults(StoredParams(tab.demand, k), pids);
      assert pids[i] == plans[i].id;
    }
  }

  /** The parameters a returned segment carries are its row's stored entry
      as it stands after the scrape (when the row has one). */
  lemma ScrapedParamsAreStored(tab: Tab, parse: string -> Option<real>, j: int)
    requires 0 <= j < |GetData(tab, parse).data.segments|
    ensures var r := GetData(tab, parse);
      var pids := Ids(r.data.plans, PlanKey);
      var k := KeptPositions(SegmentCandidates(tab, pids, parse))[j];
      0 <= k < |tab.segmentRows| && (k in tab.demand ==> r.data.segments[j].params == r.after.demand[k])
  {
    var r := GetData(tab, parse);
    var pids := Ids(r.data.plans, PlanKey);
    var cands := SegmentCandidates(tab, pids, parse);
    var k := KeptPositions(cands)[j];
    assert cands[k] == Some(r.data.segments[j]);
  }

  /** Loading and then scraping gives back what was loaded, given that the
      loaded numbers, once rendered, parse back to themselves: all plans in order, all
      segments in order with every plan defaulted into their parameters, and
      the capacity as the spin box holds it. */
  lemma LoadThenGetData(tab: Tab, plans: seq<Plan>, segs: seq<Segment>, capacity: real,
                        render: real -> string, parse: string -> Option<real>)
    requires forall i :: 0 <= i < |plans| ==>
      parse(render(plans[i].dataLimit)) == Some(plans[i].dataLimit) && parse(render(plans[i].cost)) == Some(plans[i].cost)
    requires forall i :: 0 <= i < |segs| ==> parse(render(segs[i].size)) == Some(segs[i].size)
    ensures var r := GetData(LoadData(tab, plans, segs, capacity, render), parse);
      && r.data.plans == plans
      && |r.data.segments| == |segs|
      && (forall j :: 0 <= j < |segs| ==>
            r.data.segments[j] == segs[j].(params := WithDefaults(segs[j].params, Ids(plans, PlanKey))))
      && r.data.capacity == Clamp(capacity)
  {
    var loaded := LoadData(tab, plans, segs, capacity, render);
    LoadedPlansScraped(loaded, plans, segs, capacity, render, parse);
    LoadedSegmentsScraped(loaded, plans, segs, capacity, render, parse);
  }

  lemma LoadedPlansScraped(loaded: Tab, plans: seq<Plan>, segs: seq<Segment>, capacity: real,
                           render: real -> string, parse: string -> Option<real>)
    requires forall i :: 0 <= i < |plans| ==>
      parse(render(plans[i].dataLimit)) == Some(plans[i].dataLimit) && parse(render(plans[i].cost)) == Some(plans[i].cost)
    requires |loaded.planRows| == |plans|
    requires forall i :: 0 <= i < |plans| ==> loaded.planRows[i] == PlanRowOf(plans[i], render)
    ensures Kept(PlanCandidates(loaded, parse)) == plans
  {
    var pc := PlanCandidates(loaded, parse);
    forall i | 0 <= i < |pc| ensures pc[i] == Some(plans[i]) {
      assert parse(render(plans[i].dataLimit)) == Some(plans[i].dataLimit);
      assert parse(render(plans[i].cost)) == Some(plans[i].cost);
    }
    KeptAllSome(pc, plans);
  }

  lemma LoadedSegmentsScraped(loaded: Tab, plans: seq<Plan>, segs: seq<Segment>, capacity: real,
                              render: real -> string, parse: string -> Option<real>)
    requires forall i :: 0 <= i < |segs| ==> parse(render(segs[i].size)) == Some(segs[i].size)
    requires |loaded.segmentRows| == |segs|
    requires forall i :: 0 <= i < |segs| ==> loaded.segmentRows[i] == SegmentRowOf(segs[i], render)
    requires forall i :: 0 <= i < |segs| ==> i in loaded.demand && loaded.demand[i] == segs[i].params
    ensures var sc := Kept(SegmentCandidates(loaded, Ids(plans, PlanKey), parse));
      && |sc| == |segs|
      && forall j :: 0 <= j < |segs| ==> sc[j] == segs[j].(params := WithDefaults(segs[j].params, Ids(plans, PlanKey)))
  {
    var pids := Ids(plans, PlanKey);
    var sc := SegmentCandidates(loaded, pids, parse);
    var wanted := seq(|segs|, j requires 0 <= j < |segs| => segs[j].(params := WithDefaults(segs[j].params, pids)));
    forall j | 0 <= j < |sc| ensures sc[j] == Some(wanted[j]) {
      assert parse(render(segs[j].size)) == Some(segs[j].size);
      assert StoredParams(loaded.demand, j) == segs[j].params;
    }
    KeptAllSome(sc, wanted);
  }

  /** A row added with the default texts is scraped as the last plan, with
      data limit 10 and cost 5, when those texts parse as such. */
  lemma AddedPlanScraped(tab: Tab, parse: string -> Option<real>)
    requires parse("10.0") == Some(10.0) && parse("5.0") == Some(5.0)
    ensures var before := GetData(tab, parse).data.plans;
      GetData(AddPlanRow(tab), parse).data.plans ==
        before + [Plan("P" + NatToString(|tab.planRows| + 1), "New Plan", 10.0, 5.0)]
  {
    var added := AddPlanRow(tab);
    var c := PlanCandidates(added, parse);
    assert c[..|c| - 1] == PlanCandidates(tab, parse);
  }

  /** Removing plan row cur drops exactly that row's plan, if it parsed, from
      the scrape; the plans before and after it are scraped as before. */
  lemma RemovedPlanScraped(tab: Tab, parse: string -> Option<real>, cur: int)
    requires 0 <= cur < |tab.planRows|
    ensures var c := PlanCandidates(tab, parse);
      var dropped := if c[cur].Some? then [c[cur].value] else [];
      && GetData(tab, parse).data.plans == Kept(c[..cur]) + dropped + Kept(c[cur + 1..])
      && GetData(RemovePlanRow(tab, cur), parse).data.plans == Kept(c[..cur]) + Kept(c[cur + 1..])
  {
    var c := PlanCandidates(tab, parse);
    assert PlanCandidates(RemovePlanRow(tab, cur), parse) == c[..cur] + c[cur + 1..];
    KeptAppend(c[..cur], c[cur + 1..]);
    assert c == c[..cur] + [c[cur]] + c[cur + 1..];
    KeptAppend(c[..cur] + [c[cur]], c[cur + 1..]);
    KeptAppend(c[..cur], [c[cur]]);
    assert [c[cur]][..0] == [];
  }
}
