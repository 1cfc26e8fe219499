/** Monthly product costs and price floors (costing/monthly_cost.py), in exact
    arithmetic. */
module MonthlyCost {
  import opened Text
  import opened Decimal

  datatype Product = CustomerTools | AiWorkspace
  datatype Target = Direct(product: Product) | Shared | UnknownTarget
  datatype Category = Model | Server | Gateway | Storage | Operations
  datatype Basis = Actual | Estimate | ConfirmedZero | UnknownBasis
  datatype Currency = Cny | Foreign | NoCurrency
  datatype Approval = Approved | Working | UnknownApproval

  /** A row of the cost table. None stands for a field that is no valid decimal. */
  datatype CostRow = CostRow(month: string, id: string, target: Target, category: Option<Category>, basis: Basis,
    source: string, currency: Currency, amount: Option<real>, fx: Option<real>, fxSource: string)
  datatype AllocationRow = AllocationRow(month: string, id: string, target: Target, driver: string, source: string,
    weight: Option<real>)
  datatype ParameterRow = ParameterRow(month: string, target: Target, unit: string, source: string, approval: Approval,
    units: Option<real>, onboarding: Option<real>, reserve: Option<real>, fee: Option<real>, margin: Option<real>)

  const SMALLEST: real := 0.0000000001

  type Cell = (Product, Category)

  // ---- the rows of one month ----

  function CostsOf(rows: seq<CostRow>, month: string): seq<CostRow> {
    if rows == [] then []
    else CostsOf(rows[..|rows| - 1], month) + if rows[|rows| - 1].month == month then [rows[|rows| - 1]] else []
  }

  function AllocationsOf(rows: seq<AllocationRow>, month: string): seq<AllocationRow> {
    if rows == [] then []
    else AllocationsOf(rows[..|rows| - 1], month) + if rows[|rows| - 1].month == month then [rows[|rows| - 1]] else []
  }

  function ParametersOf(rows: seq<ParameterRow>, month: string): seq<ParameterRow> {
    if rows == [] then []
    else ParametersOf(rows[..|rows| - 1], month) + if rows[|rows| - 1].month == month then [rows[|rows| - 1]] else []
  }

  // ---- costs ----

  predicate GoodCost(r: CostRow) {
    && r.id != "" && r.target != UnknownTarget && r.category.Some? && r.basis != UnknownBasis
    && r.source != "" && r.currency != NoCurrency && r.amount.Some? && r.fx.Some? && r.fx.value >= SMALLEST
    && (if r.currency == Cny then r.fx.value == 1.0 else r.fxSource != "")
    && (r.basis == ConfirmedZero ==> r.amount.value == 0.0)
  }

  /** In CNY. */
  function Converted(r: CostRow): real {
    if r.amount.Some? && r.fx.Some? then r.amount.value * r.fx.value else 0.0
  }

  function Ids(cs: seq<CostRow>): set<string> {
    set r | r in cs :: r.id
  }

  predicate ValidCosts(cs: seq<CostRow>) {
    cs == [] || (ValidCosts(cs[..|cs| - 1]) && GoodCost(cs[|cs| - 1]) && cs[|cs| - 1].id !in Ids(cs[..|cs| - 1]))
  }

  /** All costs of a category, whoever bears them. */
  function CategoryTotal(cs: seq<CostRow>, c: Category): real {
    if cs == [] then 0.0
    else CategoryTotal(cs[..|cs| - 1], c) + if cs[|cs| - 1].category == Some(c) then Converted(cs[|cs| - 1]) else 0.0
  }

  function DirectSum(cs: seq<CostRow>, p: Product, c: Category): real {
    if cs == [] then 0.0
    else
      var r := cs[|cs| - 1];
      DirectSum(cs[..|cs| - 1], p, c) + if r.target == Direct(p) && r.category == Some(c) then Converted(r) else 0.0
  }

  function SharedSum(cs: seq<CostRow>, c: Category): real {
    if cs == [] then 0.0
    else
      var r := cs[|cs| - 1];
      SharedSum(cs[..|cs| - 1], c) + if r.target == Shared && r.category == Some(c) then Converted(r) else 0.0
  }

  type SharedCosts = map<string, (Category, real)>

  function SharedMap(cs: seq<CostRow>): SharedCosts {
    if cs == [] then map[]
    else
      var r, m := cs[|cs| - 1], SharedMap(cs[..|cs| - 1]);
      if r.target == Shared && r.category.Some? then m[r.id := (r.category.value, Converted(r))] else m
  }

  function Covered(cs: seq<CostRow>): set<Cell> {
    set r | r in cs && r.target.Direct? && r.category.Some? :: (r.target.product, r.category.value)
  }

  function At(totals: map<Cell, real>, p: Product, c: Category): real {
    if (p, c) in totals then totals[(p, c)] else 0.0
  }

  lemma CostsNext(rows: seq<CostRow>, month: string, i: nat)
    requires i < |rows|
    ensures CostsOf(rows[..i + 1], month) == CostsOf(rows[..i], month) + if rows[i].month == month
      then [rows[i]] else []
  {
    assert rows[..i + 1][..i] == rows[..i];
  }

  lemma CostsSnoc(cs: seq<CostRow>, r: CostRow)
    ensures ValidCosts(cs + [r]) <==> ValidCosts(cs) && GoodCost(r) && r.id !in Ids(cs)
    ensures Ids(cs + [r]) == Ids(cs) + {r.id}
    ensures Estimated(cs + [r]) == (Estimated(cs) || r.basis == Estimate)
    ensures SharedMap(cs + [r])
      == if r.target == Shared && r.category.Some? then SharedMap(cs)[r.id := (r.category.value, Converted(r))]
        else SharedMap(cs)
    ensures Covered(cs + [r])
      == Covered(cs) + if r.target.Direct? && r.category.Some? then {(r.target.product, r.category.value)} else {}
  {
    assert (cs + [r])[..|cs|] == cs;
  }

  lemma DirectSnoc(cs: seq<CostRow>, r: CostRow, p: Product, c: Category)
    ensures DirectSum(cs + [r], p, c)
      == DirectSum(cs, p, c) + if r.target == Direct(p) && r.category == Some(c) then Converted(r) else 0.0
  {
    assert (cs + [r])[..|cs|] == cs;
  }

  lemma {:induction false} ValidPrefix(cs: seq<CostRow>, more: seq<CostRow>)
    requires ValidCosts(cs + more)
    ensures ValidCosts(cs)
    decreases |more|
  {
    if more == [] {
      assert cs + more == cs;
    } else {
      assert (cs + more)[..|cs + more| - 1] == cs + more[..|more| - 1];
      ValidPrefix(cs, more[..|more| - 1]);
    }
  }

  lemma {:induction false} CostsPrefix(rows: seq<CostRow>, month: string, i: nat) returns (more: seq<CostRow>)
    requires i <= |rows|
    ensures CostsOf(rows, month) == CostsOf(rows[..i], month) + more
    decreases |rows| - i
  {
    if i == |rows| {
      assert rows[..i] == rows;
      more := [];
    } else {
      more := CostsPrefix(rows, month, i + 1);
      CostsNext(rows, month, i);
      more := (if rows[i].month == month then [rows[i]] else []) + more;
    }
  }

  /** A bad row among the first i spoils the month. */
  lemma BadCosts(rows: seq<CostRow>, month: string, i: nat)
    requires i <= |rows| && !ValidCosts(CostsOf(rows[..i], month))
    ensures !ValidCosts(CostsOf(rows, month))
  {
    var more := CostsPrefix(rows, month, i);
    if ValidCosts(CostsOf(rows, month)) {
      ValidPrefix(CostsOf(rows[..i], month), more);
    }
  }

  ghost predicate Totals(totals: map<Cell, real>, cs: seq<CostRow>) {
    forall p, c :: At(totals, p, c) == DirectSum(cs, p, c)
  }

  predicate Estimated(cs: seq<CostRow>) {
    cs != [] && (cs[|cs| - 1].basis == Estimate || Estimated(cs[..|cs| - 1]))
  }

  /** What the loop over costs has gathered from cs. */
  ghost predicate CostsSoFar(cs: seq<CostRow>, seen: set<string>, totals: map<Cell, real>, shared: SharedCosts,
    coverage: set<Cell>, provisional: bool)
  {
    && ValidCosts(cs) && seen == Ids(cs) && shared == SharedMap(cs) && coverage == Covered(cs)
    && Totals(totals, cs) && provisional == Estimated(cs)
  }

  lemma TakeShared(cs: seq<CostRow>, r: CostRow, seen: set<string>, totals: map<Cell, real>, shared: SharedCosts,
    coverage: set<Cell>, provisional: bool)
    requires CostsSoFar(cs, seen, totals, shared, coverage, provisional) && GoodCost(r) && r.id !in seen
      && r.target == Shared
    ensures CostsSoFar(cs + [r], seen + {r.id}, totals, shared[r.id := (r.category.value, Converted(r))],
      coverage, provisional || r.basis == Estimate)
  {
    CostsSnoc(cs, r);
    forall p, c
      ensures At(totals, p, c) == DirectSum(cs + [r], p, c)
    {
      assert At(totals, p, c) == DirectSum(cs, p, c);
      DirectSnoc(cs, r, p, c);
    }
  }

  lemma TakeDirect(cs: seq<CostRow>, r: CostRow, seen: set<string>, totals: map<Cell, real>, shared: SharedCosts,
    coverage: set<Cell>, provisional: bool)
    requires CostsSoFar(cs, seen, totals, shared, coverage, provisional) && GoodCost(r) && r.id !in seen
      && r.target.Direct?
    ensures var p, c := r.target.product, r.category.value;
      CostsSoFar(cs + [r], seen + {r.id}, totals[(p, c) := At(totals, p, c) + Converted(r)],
        shared, coverage + {(p, c)},
        provisional || r.basis == Estimate)
  {
    CostsSnoc(cs, r);
    var p, c := r.target.product, r.category.value;
    forall p', c'
      ensures At(totals[(p, c) := At(totals, p, c) + Converted(r)], p', c') == DirectSum(cs + [r], p', c')
    {
      assert At(totals, p', c') == DirectSum(cs, p', c');
      DirectSnoc(cs, r, p', c');
    }
  }

  lemma RefusedCost(rows: seq<CostRow>, month: string, i: nat, seen: set<string>)
    requires i < |rows| && rows[i].month == month && seen == Ids(CostsOf(rows[..i], month))
    requires !GoodCost(rows[i]) || rows[i].id in seen
    ensures !ValidCosts(CostsOf(rows, month))
  {
    CostsNext(rows, month, i);
    CostsSnoc(CostsOf(rows[..i], month), rows[i]);
    BadCosts(rows, month, i + 1);
  }

  method Convert(row: CostRow) returns (converted: real)
    requires GoodCost(row)
    ensures converted == Converted(row)
  {
    converted := row.amount.value * row.fx.value;
  }

  /** The loop's body, for a row that is not refused. */
  method TakeCost(row: CostRow, seen: set<string>, totals0: map<Cell, real>, shared0: SharedCosts, coverage0: set<Cell>,
    provisional0: bool, ghost cs: seq<CostRow>)
    returns (totals: map<Cell, real>, shared: SharedCosts, coverage: set<Cell>, provisional: bool)
    requires CostsSoFar(cs, seen, totals0, shared0, coverage0, provisional0) && GoodCost(row) && row.id !in seen
    ensures CostsSoFar(cs + [row], seen + {row.id}, totals, shared, coverage, provisional)
  {
    totals, shared, coverage := totals0, shared0, coverage0;
    var converted := Convert(row);
    if row.target == Shared {
      TakeShared(cs, row, seen, totals0, shared0, coverage0, provisional0);
      shared := shared[row.id := (row.category.value, converted)];
    } else {
      TakeDirect(cs, row, seen, totals0, shared0, coverage0, provisional0);
      var p, c := row.target.product, row.category.value;
      totals := totals[(p, c) := At(totals, p, c) + converted];
      coverage := coverage + {(p, c)};
    }
    provisional := provisional0 || row.basis == Estimate;
  }

  method SumCosts(month: string, rows: seq<CostRow>)
    returns (ok: bool, totals: map<Cell, real>, shared: SharedCosts, coverage: set<Cell>, provisional: bool)
    ensures ok <==> ValidCosts(CostsOf(rows, month))
    ensures ok ==> var cs := CostsOf(rows, month);
      shared == SharedMap(cs) && coverage == Covered(cs) && Totals(totals, cs) && provisional == Estimated(cs)
  {
    totals, shared, coverage, provisional := map[], map[], {}, false;
    var seen := {};
    for i := 0 to |rows|
      invariant CostsSoFar(CostsOf(rows[..i], month), seen, totals, shared, coverage, provisional)
    {
      var row := rows[i];
      CostsNext(rows, month, i);
      ghost var cs := CostsOf(rows[..i], month);
      if row.month != month {
        assert cs + [] == cs;
        continue;
      }
      if !GoodCost(row) || row.id in seen {
        RefusedCost(rows, month, i, seen);
        return false, map[], map[], {}, false;
      }
      totals, shared, coverage, provisional := TakeCost(row, seen, totals, shared, coverage, provisional, cs);
      seen := seen + {row.id};
    }
    assert rows[..|rows|] == rows;
    ok := true;
  }

  // ---- allocations ----

  predicate GoodAllocation(a: AllocationRow, shared: SharedCosts) {
    && a.id != "" && a.target.Direct? && a.id in shared && a.driver != "" && a.source != ""
    && a.weight.Some? && 0.0 <= a.weight.value <= 1.0
  }

  function Pairs(allocations: seq<AllocationRow>): set<(string, Target)> {
    set a | a in allocations :: (a.id, a.target)
  }

  predicate GoodAllocations(allocations: seq<AllocationRow>, shared: SharedCosts) {
    allocations == [] || (
      var init, a := allocations[..|allocations| - 1], allocations[|allocations| - 1];
      GoodAllocations(init, shared) && GoodAllocation(a, shared) && (a.id, a.target) !in Pairs(init))
  }

  function Share(a: AllocationRow): real {
    if a.weight.Some? then a.weight.value else 0.0
  }

  function WeightOf(allocations: seq<AllocationRow>, id: string): real {
    if allocations == [] then 0.0
    else
      var a := allocations[|allocations| - 1];
      WeightOf(allocations[..|allocations| - 1], id) + if a.id == id then Share(a) else 0.0
  }

  predicate ValidAllocations(allocations: seq<AllocationRow>, shared: SharedCosts) {
    GoodAllocations(allocations, shared) && forall id :: id in shared ==> WeightOf(allocations, id) == 1.0
  }

  /** What one allocation carries of category c. */
  function Part(a: AllocationRow, shared: SharedCosts, c: Category): real {
    if a.id in shared && shared[a.id].0 == c then shared[a.id].1 * Share(a) else 0.0
  }

  function PartFor(a: AllocationRow, shared: SharedCosts, p: Product, c: Category): real {
    if a.target == Direct(p) then Part(a, shared, c) else 0.0
  }

  function AllocatedSum(allocations: seq<AllocationRow>, shared: SharedCosts, p: Product, c: Category): real {
    if allocations == [] then 0.0
    else
      AllocatedSum(allocations[..|allocations| - 1], shared, p, c)
        + PartFor(allocations[|allocations| - 1], shared, p, c)
  }

  function AllocatedCells(allocations: seq<AllocationRow>, shared: SharedCosts): set<Cell> {
    set a | a in allocations && a.target.Direct? && a.id in shared :: (a.target.product, shared[a.id].0)
  }

  function Weight(weights: map<string, real>, id: string): real {
    if id in weights then weights[id] else 0.0
  }

  lemma AllocationsNext(rows: seq<AllocationRow>, month: string, i: nat)
    requires i < |rows|
    ensures AllocationsOf(rows[..i + 1], month) == AllocationsOf(rows[..i], month) + if rows[i].month == month
      then [rows[i]] else []
  {
    assert rows[..i + 1][..i] == rows[..i];
  }

  lemma AllocationsSnoc(xs: seq<AllocationRow>, a: AllocationRow, shared: SharedCosts)
    ensures GoodAllocations(xs + [a], shared)
      <==> GoodAllocations(xs, shared) && GoodAllocation(a, shared) && (a.id, a.target) !in Pairs(xs)
    ensures Pairs(xs + [a]) == Pairs(xs) + {(a.id, a.target)}
    ensures AllocatedCells(xs + [a], shared)
      == AllocatedCells(xs, shared) + if a.target.Direct? && a.id in shared
        then {(a.target.product, shared[a.id].0)} else {}
  {
    assert (xs + [a])[..|xs|] == xs;
  }

  lemma {:induction false} AllocationsPrefix(rows: seq<AllocationRow>, month: string, i: nat)
    returns (more: seq<AllocationRow>)
    requires i <= |rows|
    ensures AllocationsOf(rows, month) == AllocationsOf(rows[..i], month) + more
    decreases |rows| - i
  {
    if i == |rows| {
      assert rows[..i] == rows;
      more := [];
    } else {
      more := AllocationsPrefix(rows, month, i + 1);
      AllocationsNext(rows, month, i);
      more := (if rows[i].month == month then [rows[i]] else []) + more;
    }
  }

  lemma {:induction false} GoodPrefix(xs: seq<AllocationRow>, more: seq<AllocationRow>, shared: SharedCosts)
    requires GoodAllocations(xs + more, shared)
    ensures GoodAllocations(xs, shared)
    decreases |more|
  {
    if more == [] {
      assert xs + more == xs;
    } else {
      assert (xs + more)[..|xs + more| - 1] == xs + more[..|more| - 1];
      GoodPrefix(xs, more[..|more| - 1], shared);
    }
  }

  lemma BadAllocations(rows: seq<AllocationRow>, month: string, i: nat, shared: SharedCosts)
    requires i <= |rows| && !GoodAllocations(AllocationsOf(rows[..i], month), shared)
    ensures !GoodAllocations(AllocationsOf(rows, month), shared)
  {
    var more := AllocationsPrefix(rows, month, i);
    if GoodAllocations(AllocationsOf(rows, month), shared) {
      GoodPrefix(AllocationsOf(rows[..i], month), more, shared);
    }
  }

  ghost predicate Portions(portions: map<Cell, real>, xs: seq<AllocationRow>, shared: SharedCosts) {
    forall p, c :: At(portions, p, c) == AllocatedSum(xs, shared, p, c)
  }

  lemma AddedAt(portions: map<Cell, real>, xs: seq<AllocationRow>, a: AllocationRow, shared: SharedCosts, part: real)
    requires Portions(portions, xs, shared)
    requires GoodAllocation(a, shared) && part == Part(a, shared, shared[a.id].0)
    ensures var p, c := a.target.product, shared[a.id].0;
      Portions(portions[(p, c) := At(portions, p, c) + part], xs + [a], shared)
  {
    var p, c := a.target.product, shared[a.id].0;
    assert (xs + [a])[..|xs|] == xs;
    forall p', c'
      ensures At(portions[(p, c) := At(portions, p, c) + part], p', c') == AllocatedSum(xs + [a], shared, p', c')
    {
      assert At(portions, p', c') == AllocatedSum(xs, shared, p', c');
    }
  }

  ghost predicate Weights(weights: map<string, real>, xs: seq<AllocationRow>) {
    forall id :: Weight(weights, id) == WeightOf(xs, id)
  }

  lemma AddedWeight(weights: map<string, real>, xs: seq<AllocationRow>, a: AllocationRow)
    requires Weights(weights, xs)
    ensures Weights(weights[a.id := Weight(weights, a.id) + Share(a)], xs + [a])
  {
    assert (xs + [a])[..|xs|] == xs;
    forall id
      ensures Weight(weights[a.id := Weight(weights, a.id) + Share(a)], id) == WeightOf(xs + [a], id)
    {
      assert Weight(weights, id) == WeightOf(xs, id);
    }
  }

  /** What the loop over allocations has gathered from xs. */
  ghost predicate SharesSoFar(xs: seq<AllocationRow>, shared: SharedCosts, seen: set<(string, Target)>,
    coverage: set<Cell>,
    weights: map<string, real>, portions: map<Cell, real>)
  {
    && GoodAllocations(xs, shared) && seen == Pairs(xs) && coverage == AllocatedCells(xs, shared)
    && Weights(weights, xs) && Portions(portions, xs, shared)
  }

  lemma TakeAllocation(xs: seq<AllocationRow>, a: AllocationRow, shared: SharedCosts, seen: set<(string, Target)>,
    coverage: set<Cell>, weights: map<string, real>, portions: map<Cell, real>, part: real)
    requires SharesSoFar(xs, shared, seen, coverage, weights, portions)
    requires GoodAllocation(a, shared) && (a.id, a.target) !in seen && part == shared[a.id].1 * a.weight.value
    ensures var p, c := a.target.product, shared[a.id].0;
      SharesSoFar(xs + [a], shared, seen + {(a.id, a.target)}, coverage + {(p, c)},
        weights[a.id := Weight(weights, a.id) + a.weight.value], portions[(p, c) := At(portions, p, c) + part])
  {
    AllocationsSnoc(xs, a, shared);
    AddedAt(portions, xs, a, shared, part);
    AddedWeight(weights, xs, a);
  }

  lemma PassAllocation(rows: seq<AllocationRow>, month: string, i: nat)
    requires i < |rows| && rows[i].month != month
    ensures AllocationsOf(rows[..i + 1], month) == AllocationsOf(rows[..i], month)
  {
    AllocationsNext(rows, month, i);
    assert AllocationsOf(rows[..i], month) + [] == AllocationsOf(rows[..i], month);
  }

  lemma RefuseAllocation(rows: seq<AllocationRow>, month: string, i: nat, shared: SharedCosts)
    requires i < |rows| && rows[i].month == month
    requires !GoodAllocation(rows[i], shared)
      || (rows[i].id, rows[i].target) in Pairs(AllocationsOf(rows[..i], month))
    ensures !GoodAllocations(AllocationsOf(rows, month), shared)
  {
    AllocationsNext(rows, month, i);
    AllocationsSnoc(AllocationsOf(rows[..i], month), rows[i], shared);
    BadAllocations(rows, month, i + 1, shared);
  }

  method SumAllocations(month: string, rows: seq<AllocationRow>, shared: SharedCosts)
    returns (ok: bool, portions: map<Cell, real>, coverage: set<Cell>)
    ensures ok <==> ValidAllocations(AllocationsOf(rows, month), shared)
    ensures ok ==> var xs := AllocationsOf(rows, month);
      && coverage == AllocatedCells(xs, shared)
      && Portions(portions, xs, shared)
  {
    portions, coverage := map[], {};
    var weights: map<string, real> := map[];
    var seen := {};
    for i := 0 to |rows|
      invariant SharesSoFar(AllocationsOf(rows[..i], month), shared, seen, coverage, weights, portions)
    {
      var row := rows[i];
      if row.month != month {
        PassAllocation(rows, month, i);
        continue;
      }
      if !GoodAllocation(row, shared) || (row.id, row.target) in seen {
        RefuseAllocation(rows, month, i, shared);
        return false, map[], {};
      }
      var p, c := row.target.product, shared[row.id].0;
      var part := shared[row.id].1 * row.weight.value;
      AllocationsNext(rows, month, i);
      TakeAllocation(AllocationsOf(rows[..i], month), row, shared, seen, coverage, weights, portions, part);
      seen := seen + {(row.id, row.target)};
      weights := weights[row.id := Weight(weights, row.id) + row.weight.value];
      portions := portions[(p, c) := At(portions, p, c) + part];
      coverage := coverage + {(p, c)};
    }
    assert rows[..|rows|] == rows;
    ok := WeightsAreOne(shared, weights);
  }

  method WeightsAreOne(shared: SharedCosts, weights: map<string, real>) returns (ok: bool)
    ensures ok <==> forall id :: id in shared ==> Weight(weights, id) == 1.0
  {
    var rest := shared.Keys;
    while rest != {}
      invariant rest <= shared.Keys
      invariant forall id :: id in shared && id !in rest ==> Weight(weights, id) == 1.0
    {
      var id :| id in rest;
      if Weight(weights, id) != 1.0 {
        return false;
      }
      rest := rest - {id};
    }
    return true;
  }

  // ---- conservation ----

  /** What a product bears of a category: its own costs and its shares. */
  function Borne(cs: seq<CostRow>, xs: seq<AllocationRow>, p: Product, c: Category): real {
    DirectSum(cs, p, c) + AllocatedSum(xs, SharedMap(cs), p, c)
  }

  function PartSum(xs: seq<AllocationRow>, shared: SharedCosts, c: Category): real {
    if xs == [] then 0.0 else PartSum(xs[..|xs| - 1], shared, c) + Part(xs[|xs| - 1], shared, c)
  }

  lemma {:induction false} BothProducts(xs: seq<AllocationRow>, shared: SharedCosts, c: Category)
    requires GoodAllocations(xs, shared)
    ensures AllocatedSum(xs, shared, CustomerTools, c) + AllocatedSum(xs, shared, AiWorkspace, c)
      == PartSum(xs, shared, c)
  {
    if xs != [] {
      BothProducts(xs[..|xs| - 1], shared, c);
      var t := xs[|xs| - 1].target;
      assert t == Direct(t.product) && (t.product == CustomerTools || t.product == AiWorkspace);
    }
  }

  lemma {:induction false} NothingShared(xs: seq<AllocationRow>, c: Category)
    ensures PartSum(xs, map[], c) == 0.0
  {
    if xs != [] {
      NothingShared(xs[..|xs| - 1], c);
    }
  }

  /** A cost times the weights given to it, weight by weight. */
  function Weighted(xs: seq<AllocationRow>, id: string, amount: real): real {
    if xs == [] then 0.0
    else Weighted(xs[..|xs| - 1], id, amount) + if xs[|xs| - 1].id == id then amount * Share(xs[|xs| - 1]) else 0.0
  }

  lemma {:induction false} WeightedIsProduct(xs: seq<AllocationRow>, id: string, amount: real)
    ensures Weighted(xs, id, amount) == amount * WeightOf(xs, id)
  {
    if xs != [] {
      WeightedIsProduct(xs[..|xs| - 1], id, amount);
      Distribute(amount, WeightOf(xs[..|xs| - 1], id), if xs[|xs| - 1].id == id then Share(xs[|xs| - 1]) else 0.0);
    }
  }

  /** One more shared cost adds what the weights make of it. */
  lemma {:induction false} OneMoreShared(xs: seq<AllocationRow>, shared: SharedCosts, id: string, of: Category,
    amount: real, c: Category)
    requires id !in shared
    ensures PartSum(xs, shared[id := (of, amount)], c) == PartSum(xs, shared, c) + if of == c
      then Weighted(xs, id, amount) else 0.0
  {
    if xs != [] {
      OneMoreShared(xs[..|xs| - 1], shared, id, of, amount, c);
      PartExtended(xs[|xs| - 1], shared, id, of, amount, c);
    }
  }

  lemma PartExtended(a: AllocationRow, shared: SharedCosts, id: string, of: Category, amount: real, c: Category)
    requires id !in shared
    ensures Part(a, shared[id := (of, amount)], c)
      == Part(a, shared, c) + if of == c && a.id == id then amount * Share(a) else 0.0
  {}

  lemma Distribute(x: real, y: real, z: real)
    ensures x * (y + z) == x * y + x * z
  {}

  lemma {:induction false} SharedIds(cs: seq<CostRow>)
    ensures SharedMap(cs).Keys <= Ids(cs)
  {
    if cs != [] {
      SharedIds(cs[..|cs| - 1]);
      assert cs == cs[..|cs| - 1] + [cs[|cs| - 1]];
    }
  }

  lemma {:induction false} SharesAddUp(cs: seq<CostRow>, xs: seq<AllocationRow>, c: Category)
    requires ValidCosts(cs) && forall id :: id in SharedMap(cs) ==> WeightOf(xs, id) == 1.0
    ensures PartSum(xs, SharedMap(cs), c) == SharedSum(cs, c)
  {
    if cs == [] {
      NothingShared(xs, c);
    } else {
      LastShare(cs, xs, c);
      SharesAddUp(cs[..|cs| - 1], xs, c);
    }
  }

  lemma LastShare(cs: seq<CostRow>, xs: seq<AllocationRow>, c: Category)
    requires cs != [] && ValidCosts(cs) && forall id :: id in SharedMap(cs) ==> WeightOf(xs, id) == 1.0
    ensures var init := cs[..|cs| - 1];
      && (forall id :: id in SharedMap(init) ==> WeightOf(xs, id) == 1.0)
      && PartSum(xs, SharedMap(cs), c) - PartSum(xs, SharedMap(init), c) == SharedSum(cs, c) - SharedSum(init, c)
  {
    var init, r := cs[..|cs| - 1], cs[|cs| - 1];
    SharedIds(init);
    if r.target == Shared {
      assert forall id :: id in SharedMap(init) ==> id in SharedMap(cs);
      assert r.id in SharedMap(cs);
      OneMoreShared(xs, SharedMap(init), r.id, r.category.value, Converted(r), c);
      WeightedIsProduct(xs, r.id, Converted(r));
    }
  }

  lemma {:induction false} DirectOrShared(cs: seq<CostRow>, c: Category)
    requires ValidCosts(cs)
    ensures CategoryTotal(cs, c) == DirectSum(cs, CustomerTools, c) + DirectSum(cs, AiWorkspace, c) + SharedSum(cs, c)
  {
    if cs != [] {
      DirectOrShared(cs[..|cs| - 1], c);
      var t := cs[|cs| - 1].target;
      assert t.Direct? ==> t == Direct(t.product) && (t.product == CustomerTools || t.product == AiWorkspace);
    }
  }

  /** Category by category, the two products bear all costs of the month and
      nothing else. */
  lemma CostsConserved(cs: seq<CostRow>, xs: seq<AllocationRow>, c: Category)
    requires ValidCosts(cs) && ValidAllocations(xs, SharedMap(cs))
    ensures Borne(cs, xs, CustomerTools, c) + Borne(cs, xs, AiWorkspace, c) == CategoryTotal(cs, c)
  {
    BothProducts(xs, SharedMap(cs), c);
    SharesAddUp(cs, xs, c);
    DirectOrShared(cs, c);
  }

  /** All categories together. */
  function Everything(cs: seq<CostRow>): real {
    if cs == [] then 0.0 else Everything(cs[..|cs| - 1]) + Converted(cs[|cs| - 1])
  }

  lemma {:induction false} CategoriesAddUp(cs: seq<CostRow>)
    requires ValidCosts(cs)
    ensures Everything(cs) == CategoryTotal(cs, Model) + CategoryTotal(cs, Server) + CategoryTotal(cs, Gateway)
      + CategoryTotal(cs, Storage) + CategoryTotal(cs, Operations)
  {
    if cs != [] {
      CategoriesAddUp(cs[..|cs| - 1]);
      var c := cs[|cs| - 1].category.value;
      assert c == Model || c == Server || c == Gateway || c == Storage || c == Operations;
    }
  }

  // ---- parameters and floors ----

  datatype Config = Config(units: real, onboarding: real, reserve: real, fee: real, margin: real)

  predicate AtLeast(x: Option<real>, minimum: real) {
    x.Some? && x.value >= minimum
  }

  predicate GoodParameter(r: ParameterRow) {
    && r.target.Direct? && r.unit != "" && r.source != "" && r.approval != UnknownApproval
    && AtLeast(r.units, SMALLEST) && AtLeast(r.onboarding, 0.0) && AtLeast(r.reserve, 0.0)
    && AtLeast(r.fee, 0.0) && AtLeast(r.margin, 0.0) && r.fee.value + r.margin.value < 1.0
  }

  function ConfigOf(r: ParameterRow): Config
    requires GoodParameter(r)
  {
    Config(r.units.value, r.onboarding.value, r.reserve.value, r.fee.value, r.margin.value)
  }

  /** The products' parameters, or None for a bad or repeated row. */
  function Configs(ps: seq<ParameterRow>): Option<map<Product, Config>> {
    if ps == [] then Some(map[])
    else
      var earlier, r := Configs(ps[..|ps| - 1]), ps[|ps| - 1];
      if earlier.None? || !GoodParameter(r) || r.target.product in earlier.value then None
      else Some(earlier.value[r.target.product := ConfigOf(r)])
  }

  lemma ParametersNext(rows: seq<ParameterRow>, month: string, i: nat)
    requires i < |rows|
    ensures ParametersOf(rows[..i + 1], month) == ParametersOf(rows[..i], month) + if rows[i].month == month
      then [rows[i]] else []
  {
    assert rows[..i + 1][..i] == rows[..i];
  }

  lemma {:induction false} BadParameters(rows: seq<ParameterRow>, month: string, i: nat)
    requires i <= |rows| && Configs(ParametersOf(rows[..i], month)).None?
    ensures Configs(ParametersOf(rows, month)).None?
    decreases |rows| - i
  {
    if i == |rows| {
      assert rows[..i] == rows;
    } else {
      ParametersNext(rows, month, i);
      var ps := ParametersOf(rows[..i], month);
      assert (ps + [rows[i]])[..|ps|] == ps && ps + [] == ps;
      BadParameters(rows, month, i + 1);
    }
  }

  method ReadParameters(month: string, rows: seq<ParameterRow>)
    returns (configs: Option<map<Product, Config>>, provisional: bool)
    ensures configs == Configs(ParametersOf(rows, month))
    ensures configs.Some? ==> (provisional <==> exists r :: r in ParametersOf(rows, month) && r.approval != Approved)
  {
    var read: map<Product, Config> := map[];
    provisional := false;
    for i := 0 to |rows|
      invariant Configs(ParametersOf(rows[..i], month)) == Some(read)
      invariant provisional <==> exists r :: r in ParametersOf(rows[..i], month) && r.approval != Approved
    {
      var row := rows[i];
      ParametersNext(rows, month, i);
      ghost var ps := ParametersOf(rows[..i], month);
      assert (ps + [row])[..|ps|] == ps && ps + [] == ps;
      if row.month != month {
        continue;
      }
      if !GoodParameter(row) || row.target.product in read {
        BadParameters(rows, month, i + 1);
        return None, false;
      }
      provisional := provisional || row.approval != Approved;
      read := read[row.target.product := ConfigOf(row)];
    }
    assert rows[..|rows|] == rows;
    return Some(read), provisional;
  }

  /** quantize to cents with ROUND_CEILING. */
  function RoundUp(x: real): real {
    -((-x * 100.0).Floor as real) / 100.0
  }

  predicate WholeCents(x: real, n: int) {
    x * 100.0 == n as real
  }

  /** The least number of whole cents that is not below x. */
  lemma RoundUpIsCeiling(x: real)
    ensures x <= RoundUp(x) < x + 0.01
    ensures exists n :: WholeCents(RoundUp(x), n)
    ensures forall y, n :: WholeCents(y, n) && x <= y ==> RoundUp(x) <= y
  {
    var f := (-x * 100.0).Floor;
    assert WholeCents(RoundUp(x), -f);
    assert f as real <= -x * 100.0 < f as real + 1.0;
    forall y, n | WholeCents(y, n) && x <= y
      ensures RoundUp(x) <= y
    {
      assert (-n) as real <= -x * 100.0;
      assert -n <= f;
    }
  }

  datatype Figures = Figures(cost: real, quote: real, unit: real)

  function Adjusted(cost: real, g: Config): real {
    cost * (1.0 + g.reserve) + g.onboarding
  }

  function FiguresOf(cost: real, g: Config): Figures
    requires g.fee + g.margin < 1.0 && g.units > 0.0
  {
    var floor := Adjusted(cost, g) / (1.0 - g.fee - g.margin);
    Figures(cost, RoundUp(floor), RoundUp(floor / g.units))
  }

  /** Selling at the quote floor leaves, after fee and margin, at least the cost
      with its reserve and onboarding; selling every unit at the unit floor brings
      at least the unrounded floor, and less than a cent per unit more. */
  lemma FloorsCover(cost: real, g: Config)
    requires g.fee + g.margin < 1.0 && g.units > 0.0
    ensures var f, keep := FiguresOf(cost, g), 1.0 - g.fee - g.margin;
      var needed := cost * (1.0 + g.reserve) + g.onboarding;
      && f.cost == cost
      && needed <= f.quote * keep < needed + 0.01 * keep
      && needed / keep <= f.unit * g.units < needed / keep + 0.01 * g.units
  {
    var keep := 1.0 - g.fee - g.margin;
    QuoteCovers(Adjusted(cost, g), keep);
    UnitsCover(Adjusted(cost, g) / keep, g.units);
    assert FiguresOf(cost, g).unit == RoundUp(Adjusted(cost, g) / keep / g.units);
    assert Adjusted(cost, g) == cost * (1.0 + g.reserve) + g.onboarding;
  }

  lemma QuoteCovers(adjusted: real, keep: real)
    requires keep > 0.0
    ensures adjusted <= RoundUp(adjusted / keep) * keep < adjusted + 0.01 * keep
  {
    CeilingTimes(adjusted / keep, adjusted, keep);
    DivideBack(adjusted, keep);
  }

  lemma UnitsCover(floor: real, units: real)
    requires units > 0.0
    ensures floor <= RoundUp(floor / units) * units < floor + 0.01 * units
  {
    DivideBack(floor, units);
    CeilingTimes(floor / units, floor, units);
  }

  lemma CeilingTimes(each: real, floor: real, units: real)
    requires units > 0.0 && each * units == floor
    ensures floor <= RoundUp(each) * units < floor + 0.01 * units
  {
    RoundUpIsCeiling(each);
    Scale(each, RoundUp(each), units);
    var over := RoundUp(each) - each;
    ScaleStrictly(over, 0.01, units);
    Distribute(units, each, over);
    assert RoundUp(each) == each + over;
    assert RoundUp(each) * units == floor + over * units;
  }

  lemma DivideBack(a: real, b: real)
    requires b > 0.0
    ensures (a / b) * b == a
  {}

  lemma Scale(a: real, b: real, k: real)
    requires a <= b && k > 0.0
    ensures a * k <= b * k
  {}

  lemma ScaleStrictly(a: real, b: real, k: real)
    requires a < b && k > 0.0
    ensures a * k < b * k
  {}

  // ---- the month ----

  predicate MonthFormat(m: string) {
    && |m| == 7 && m[4] == '-' && (forall i :: 0 <= i < 7 && i != 4 ==> '0' <= m[i] <= '9')
    && ((m[5] == '0' && m[6] != '0') || (m[5] == '1' && m[6] <= '2'))
  }

  function CostOf(cs: seq<CostRow>, xs: seq<AllocationRow>, p: Product): real {
    Borne(cs, xs, p, Model) + Borne(cs, xs, p, Server) + Borne(cs, xs, p, Gateway) + Borne(cs, xs, p, Storage)
      + Borne(cs, xs, p, Operations)
  }

  /** The two products together cost what the month cost. */
  lemma MonthConserved(cs: seq<CostRow>, xs: seq<AllocationRow>)
    requires ValidCosts(cs) && ValidAllocations(xs, SharedMap(cs))
    ensures CostOf(cs, xs, CustomerTools) + CostOf(cs, xs, AiWorkspace) == Everything(cs)
  {
    CostsConserved(cs, xs, Model);
    CostsConserved(cs, xs, Server);
    CostsConserved(cs, xs, Gateway);
    CostsConserved(cs, xs, Storage);
    CostsConserved(cs, xs, Operations);
    CategoriesAddUp(cs);
  }

  /** Inputs the calculation accepts. */
  ghost predicate Accepted(month: string, cs: seq<CostRow>, xs: seq<AllocationRow>, ps: seq<ParameterRow>) {
    && MonthFormat(month) && ValidCosts(cs) && ValidAllocations(xs, SharedMap(cs))
    && (forall p, c :: (p, c) in Covered(cs) + AllocatedCells(xs, SharedMap(cs)))
    && Priced(ps) && NotNegative(cs, xs)
  }

  lemma {:induction false} ConfigsAreGood(ps: seq<ParameterRow>)
    requires Configs(ps).Some?
    ensures forall p :: p in Configs(ps).value ==>
      Configs(ps).value[p].fee + Configs(ps).value[p].margin < 1.0 && Configs(ps).value[p].units > 0.0
  {
    if ps != [] {
      ConfigsAreGood(ps[..|ps| - 1]);
    }
  }

  const CATEGORIES: seq<Category> := [Model, Server, Gateway, Storage, Operations]

  /** The breakdown of what a product bears. */
  ghost predicate BornBy(split: map<Category, real>, cs: seq<CostRow>, xs: seq<AllocationRow>, p: Product) {
    forall c :: c in split && split[c] == Borne(cs, xs, p, c)
  }

  method ByCategory(p: Product, totals: map<Cell, real>, portions: map<Cell, real>, ghost cs: seq<CostRow>,
    ghost xs: seq<AllocationRow>)
    returns (split: map<Category, real>)
    requires Totals(totals, cs) && Portions(portions, xs, SharedMap(cs))
    ensures BornBy(split, cs, xs, p)
  {
    split := map[];
    for i := 0 to |CATEGORIES|
      invariant forall c :: c in CATEGORIES[..i] ==> c in split && split[c] == Borne(cs, xs, p, c)
    {
      var c := CATEGORIES[i];
      split := split[c := At(totals, p, c) + At(portions, p, c)];
      assert CATEGORIES[..i + 1] == CATEGORIES[..i] + [c];
    }
    forall c
      ensures c in split && split[c] == Borne(cs, xs, p, c)
    {
      EveryCategory(c);
      assert c in CATEGORIES[..|CATEGORIES|];
    }
  }

  method SumCategories(split: map<Category, real>, p: Product, ghost cs: seq<CostRow>, ghost xs: seq<AllocationRow>)
    returns (base: real)
    requires BornBy(split, cs, xs, p)
    ensures base == CostOf(cs, xs, p)
  {
    base := 0.0;
    for i := 0 to |CATEGORIES|
      invariant base == (if i > 0 then Borne(cs, xs, p, Model) else 0.0)
        + (if i > 1 then Borne(cs, xs, p, Server) else 0.0)
        + (if i > 2 then Borne(cs, xs, p, Gateway) else 0.0) + (if i > 3 then Borne(cs, xs, p, Storage) else 0.0)
        + (if i > 4 then Borne(cs, xs, p, Operations) else 0.0)
    {
      base := base + split[CATEGORIES[i]];
    }
  }

  method Bear(p: Product, totals: map<Cell, real>, portions: map<Cell, real>, ghost cs: seq<CostRow>,
    ghost xs: seq<AllocationRow>)
    returns (split: map<Category, real>, base: real)
    requires Totals(totals, cs) && Portions(portions, xs, SharedMap(cs))
    ensures BornBy(split, cs, xs, p) && base == CostOf(cs, xs, p)
  {
    split := ByCategory(p, totals, portions, cs, xs);
    base := SumCategories(split, p, cs, xs);
  }

  predicate Complete(coverage: set<Cell>) {
    && (forall c :: c in CATEGORIES ==> (CustomerTools, c) in coverage)
    && (forall c :: c in CATEGORIES ==> (AiWorkspace, c) in coverage)
  }

  lemma EveryCategory(c: Category)
    ensures c in CATEGORIES
  {
    assert CATEGORIES[0] == Model && CATEGORIES[1] == Server && CATEGORIES[2] == Gateway
      && CATEGORIES[3] == Storage && CATEGORIES[4] == Operations;
    match c
    case Model =>
    case Server =>
    case Gateway =>
    case Storage =>
    case Operations =>
  }

  lemma CompleteIsAll(coverage: set<Cell>)
    ensures Complete(coverage) <==> forall p, c :: (p, c) in coverage
  {
    forall p: Product, c: Category | Complete(coverage)
      ensures (p, c) in coverage
    {
      EveryCategory(c);
      assert p == CustomerTools || p == AiWorkspace;
    }
  }

  predicate Usable(configs: map<Product, Config>) {
    && CustomerTools in configs && AiWorkspace in configs
    && forall p :: p in configs ==> configs[p].fee + configs[p].margin < 1.0 && configs[p].units > 0.0
  }

  /** What the month costs, category by category, and the floors it sets, for each
      product. */
  datatype Report = Report(
    tools: Figures, workspace: Figures, toolsBy: map<Category, real>, workspaceBy: map<Category, real>,
    provisional: bool)

  /** The report of accepted inputs. */
  ghost predicate Reports(r: Report, cs: seq<CostRow>, xs: seq<AllocationRow>, ps: seq<ParameterRow>) {
    && Configs(ps).Some? && Usable(Configs(ps).value)
    && r.tools == FiguresOf(CostOf(cs, xs, CustomerTools), Configs(ps).value[CustomerTools])
    && r.workspace == FiguresOf(CostOf(cs, xs, AiWorkspace), Configs(ps).value[AiWorkspace])
    && BornBy(r.toolsBy, cs, xs, CustomerTools) && BornBy(r.workspaceBy, cs, xs, AiWorkspace)
    && (r.provisional <==> Estimated(cs) || (exists p :: p in ps && p.approval != Approved))
  }

  /** A report accounts for every cost of the month, category by category. */
  lemma CategoriesConserved(
    r: Report, cs: seq<CostRow>, xs: seq<AllocationRow>, ps: seq<ParameterRow>, c: Category)
    requires ValidCosts(cs) && ValidAllocations(xs, SharedMap(cs)) && Reports(r, cs, xs, ps)
    ensures c in r.toolsBy && c in r.workspaceBy && r.toolsBy[c] + r.workspaceBy[c] == CategoryTotal(cs, c)
  {
    CostsConserved(cs, xs, c);
  }

  /** It is final exactly when no cost of the month is an estimate and every parameter
      has been approved. */
  lemma FinalMeans(r: Report, cs: seq<CostRow>, xs: seq<AllocationRow>, ps: seq<ParameterRow>)
    requires Reports(r, cs, xs, ps)
    ensures !r.provisional
      <==> (forall i :: 0 <= i < |cs| ==> cs[i].basis != Estimate) && (forall p :: p in ps ==> p.approval == Approved)
  {
    EstimatedMeans(cs);
  }

  /** What both products cost is not negative. */
  ghost predicate NotNegative(cs: seq<CostRow>, xs: seq<AllocationRow>) {
    CostOf(cs, xs, CustomerTools) >= 0.0 && CostOf(cs, xs, AiWorkspace) >= 0.0
  }

  predicate Priced(ps: seq<ParameterRow>) {
    Configs(ps).Some? && CustomerTools in Configs(ps).value && AiWorkspace in Configs(ps).value
  }

  /** The second half: from what each product bears to its floors. */
  method Price(month: string, totals: map<Cell, real>, portions: map<Cell, real>, estimated: bool,
    parameters: seq<ParameterRow>,
    ghost cs: seq<CostRow>, ghost xs: seq<AllocationRow>)
    returns (report: Option<Report>)
    requires Totals(totals, cs) && Portions(portions, xs, SharedMap(cs)) && estimated == Estimated(cs)
    ensures var ps := ParametersOf(parameters, month);
      && (report.Some? <==> Priced(ps) && NotNegative(cs, xs))
      && (report.Some? ==> Reports(report.value, cs, xs, ps))
  {
    var configs, unapproved := ReadParameters(month, parameters);
    if configs.None? || CustomerTools !in configs.value || AiWorkspace !in configs.value {
      return None;
    }
    ConfigsAreGood(ParametersOf(parameters, month));
    var toolsBy, tools := Bear(CustomerTools, totals, portions, cs, xs);
    var workspaceBy, workspace := Bear(AiWorkspace, totals, portions, cs, xs);
    if tools < 0.0 || workspace < 0.0 {
      return None;
    }
    return Some(Report(FiguresOf(tools, configs.value[CustomerTools]), FiguresOf(workspace, configs.value[AiWorkspace]),
      toolsBy, workspaceBy, estimated || unapproved));
  }

  lemma ReportConserves(r: Report, cs: seq<CostRow>, xs: seq<AllocationRow>, ps: seq<ParameterRow>)
    requires ValidCosts(cs) && ValidAllocations(xs, SharedMap(cs)) && Reports(r, cs, xs, ps)
    ensures r.tools.cost + r.workspace.cost == Everything(cs)
  {
    MonthConserved(cs, xs);
  }

  /** None is the script's InputError. */
  method Calculate(month: string, costs: seq<CostRow>, allocations: seq<AllocationRow>, parameters: seq<ParameterRow>)
    returns (report: Option<Report>)
    ensures var cs, xs, ps := CostsOf(costs, month), AllocationsOf(allocations, month), ParametersOf(parameters, month);
      && (report.Some? <==> Accepted(month, cs, xs, ps))
      && (report.Some? ==> Reports(report.value, cs, xs, ps))
      && (report.Some? ==> report.value.tools.cost + report.value.workspace.cost == Everything(cs))
  {
    ghost var cs, xs, ps := CostsOf(costs, month), AllocationsOf(allocations, month), ParametersOf(parameters, month);
    if !MonthFormat(month) {
      return None;
    }
    var okCosts, totals, shared, coverage, estimated := SumCosts(month, costs);
    if !okCosts {
      return None;
    }
    var okShares, portions, more := SumAllocations(month, allocations, shared);
    if !okShares {
      return None;
    }
    CompleteIsAll(coverage + more);
    if !Complete(coverage + more) {
      return None;
    }
    report := Price(month, totals, portions, estimated, parameters, cs, xs);
    if report.Some? {
      ReportConserves(report.value, cs, xs, ps);
    }
  }

  // ---- exactly which inputs are refused ----

  /** What is wrong with a cost row. */
  predicate CostFault(r: CostRow) {
    || r.id == "" || r.target == UnknownTarget || r.category.None? || r.basis == UnknownBasis || r.source == ""
    || r.currency == NoCurrency || r.amount.None? || r.fx.None? || r.fx.value < 0.0000000001
    || (r.currency == Cny && r.fx.value != 1.0) || (r.currency != Cny && r.fxSource == "")
    || (r.basis == ConfirmedZero && r.amount.value != 0.0)
  }

  predicate FaultyCost(rows: seq<CostRow>, month: string) {
    exists i :: 0 <= i < |rows| && rows[i].month == month && CostFault(rows[i])
  }

  predicate RepeatedCost(rows: seq<CostRow>, month: string) {
    exists i, j :: 0 <= i < j < |rows| && rows[i].month == rows[j].month == month && rows[i].id == rows[j].id
  }

  predicate UsedId(rows: seq<CostRow>, month: string, id: string) {
    exists i :: 0 <= i < |rows| && rows[i].month == month && rows[i].id == id
  }

  lemma {:induction false} IdsOfMonth(rows: seq<CostRow>, month: string, id: string)
    ensures id in Ids(CostsOf(rows, month)) <==> UsedId(rows, month, id)
  {
    if rows != [] {
      var init, r := rows[..|rows| - 1], rows[|rows| - 1];
      IdsOfMonth(init, month, id);
      CostsSnoc(CostsOf(init, month), r);
      assert CostsOf(init, month) + [] == CostsOf(init, month);
      UsedSnoc(init, r, month, id);
      assert rows == init + [r];
    }
  }

  lemma UsedSnoc(init: seq<CostRow>, r: CostRow, month: string, id: string)
    ensures UsedId(init + [r], month, id) <==> UsedId(init, month, id) || (r.month == month && r.id == id)
  {
    var all := init + [r];
    assert all[|init|] == r && forall i :: 0 <= i < |init| ==> all[i] == init[i];
  }

  lemma FaultySnoc(init: seq<CostRow>, r: CostRow, month: string)
    ensures FaultyCost(init + [r], month) <==> FaultyCost(init, month) || (r.month == month && CostFault(r))
  {
    var all := init + [r];
    assert all[|init|] == r && forall i :: 0 <= i < |init| ==> all[i] == init[i];
  }

  lemma RepeatedSnoc(init: seq<CostRow>, r: CostRow, month: string)
    ensures RepeatedCost(init + [r], month)
      <==> RepeatedCost(init, month) || (r.month == month && UsedId(init, month, r.id))
  {
    var all := init + [r];
    assert all[|init|] == r && forall i :: 0 <= i < |init| ==> all[i] == init[i];
    if i, j :| 0 <= i < j < |init| && init[i].month == init[j].month == month && init[i].id == init[j].id {
      assert all[i].month == all[j].month == month && all[i].id == all[j].id;
    }
  }

  /** The costs of a month are refused exactly when one of its rows is faulty or two of
      them share an id; rows of other months have no say. */
  lemma {:induction false} CostsRefusedExactly(rows: seq<CostRow>, month: string)
    ensures ValidCosts(CostsOf(rows, month)) <==> !FaultyCost(rows, month) && !RepeatedCost(rows, month)
  {
    if rows != [] {
      var init, r := rows[..|rows| - 1], rows[|rows| - 1];
      CostsRefusedExactly(init, month);
      ValidSnoc(init, r, month);
      FaultySnoc(init, r, month);
      RepeatedSnoc(init, r, month);
      assert rows == init + [r];
    }
  }

  lemma ValidSnoc(init: seq<CostRow>, r: CostRow, month: string)
    ensures ValidCosts(CostsOf(init + [r], month))
      <==> ValidCosts(CostsOf(init, month)) && (r.month == month ==> !CostFault(r) && !UsedId(init, month, r.id))
  {
    var cs := CostsOf(init, month);
    assert (init + [r])[..|init|] == init;
    assert CostsOf(init + [r], month) == cs + if r.month == month then [r] else [];
    if r.month == month {
      IdsOfMonth(init, month, r.id);
      CostsSnoc(cs, r);
    } else {
      assert cs + [] == cs;
    }
  }

  /** What is wrong with an allocation of the shared costs. */
  predicate AllocationFault(a: AllocationRow, shared: SharedCosts) {
    || a.id == "" || a.id !in shared || !(a.target == Direct(CustomerTools) || a.target == Direct(AiWorkspace))
    || a.driver == "" || a.source == "" || a.weight.None? || a.weight.value < 0.0 || a.weight.value > 1.0
  }

  predicate FaultyAllocation(xs: seq<AllocationRow>, shared: SharedCosts) {
    exists i :: 0 <= i < |xs| && AllocationFault(xs[i], shared)
  }

  predicate RepeatedAllocation(xs: seq<AllocationRow>) {
    exists i, j :: 0 <= i < j < |xs| && xs[i].id == xs[j].id && xs[i].target == xs[j].target
  }

  lemma AllocationFaultSnoc(init: seq<AllocationRow>, a: AllocationRow, shared: SharedCosts)
    ensures FaultyAllocation(init + [a], shared) <==> FaultyAllocation(init, shared) || AllocationFault(a, shared)
    ensures RepeatedAllocation(init + [a]) <==> RepeatedAllocation(init) || (a.id, a.target) in Pairs(init)
  {
    var all := init + [a];
    assert all[|init|] == a && forall i :: 0 <= i < |init| ==> all[i] == init[i];
    if i, j :| 0 <= i < j < |init| && init[i].id == init[j].id && init[i].target == init[j].target {
      assert all[i].id == all[j].id && all[i].target == all[j].target;
    }
    if (a.id, a.target) in Pairs(init) {
      var b :| b in init && (b.id, b.target) == (a.id, a.target);
      var i :| 0 <= i < |init| && init[i] == b;
      assert all[i].id == all[|init|].id && all[i].target == all[|init|].target;
    }
  }

  lemma GoodIsFaultless(a: AllocationRow, shared: SharedCosts)
    ensures GoodAllocation(a, shared) <==> !AllocationFault(a, shared)
  {
    if a.target.Direct? {
      assert a.target == Direct(a.target.product);
      assert a.target.product == CustomerTools || a.target.product == AiWorkspace;
    }
  }

  /** Allocations are refused exactly when a row is faulty, a cost is allocated to one
      product twice, or the weights of a shared cost do not sum to one. */
  lemma {:induction false} AllocationsRefusedExactly(xs: seq<AllocationRow>, shared: SharedCosts)
    ensures GoodAllocations(xs, shared) <==> !FaultyAllocation(xs, shared) && !RepeatedAllocation(xs)
    ensures ValidAllocations(xs, shared)
      <==> !FaultyAllocation(xs, shared) && !RepeatedAllocation(xs)
           && forall id :: id in shared ==> WeightOf(xs, id) == 1.0
  {
    if xs != [] {
      var init, a := xs[..|xs| - 1], xs[|xs| - 1];
      AllocationsRefusedExactly(init, shared);
      AllocationFaultSnoc(init, a, shared);
      GoodIsFaultless(a, shared);
      assert xs == init + [a];
    }
  }

  /** What is wrong with a row of parameters. */
  predicate ParameterFault(r: ParameterRow) {
    || !(r.target == Direct(CustomerTools) || r.target == Direct(AiWorkspace)) || r.unit == "" || r.source == ""
    || r.approval == UnknownApproval || r.units.None? || r.units.value < 0.0000000001
    || r.onboarding.None? || r.onboarding.value < 0.0 || r.reserve.None? || r.reserve.value < 0.0
    || r.fee.None? || r.fee.value < 0.0 || r.margin.None? || r.margin.value < 0.0
    || r.fee.value + r.margin.value >= 1.0
  }

  predicate FaultyParameter(ps: seq<ParameterRow>) {
    exists i :: 0 <= i < |ps| && ParameterFault(ps[i])
  }

  predicate RepeatedProduct(ps: seq<ParameterRow>) {
    exists i, j :: 0 <= i < j < |ps| && ps[i].target == ps[j].target
  }

  lemma GoodParameterIsFaultless(r: ParameterRow)
    ensures GoodParameter(r) <==> !ParameterFault(r)
  {
    if r.target.Direct? {
      assert r.target == Direct(r.target.product);
      assert r.target.product == CustomerTools || r.target.product == AiWorkspace;
    }
  }

  predicate HasTarget(ps: seq<ParameterRow>, t: Target) {
    exists i :: 0 <= i < |ps| && ps[i].target == t
  }

  lemma ParameterSnoc(init: seq<ParameterRow>, r: ParameterRow)
    ensures FaultyParameter(init + [r]) <==> FaultyParameter(init) || ParameterFault(r)
    ensures RepeatedProduct(init + [r]) <==> RepeatedProduct(init) || HasTarget(init, r.target)
  {
    var all := init + [r];
    assert all[|init|] == r && forall i :: 0 <= i < |init| ==> all[i] == init[i];
    if i, j :| 0 <= i < j < |init| && init[i].target == init[j].target {
      assert all[i].target == all[j].target;
    }
    if i :| 0 <= i < |init| && init[i].target == r.target {
      assert all[i].target == all[|init|].target;
    }
  }

  lemma HasTargetSnoc(init: seq<ParameterRow>, r: ParameterRow, t: Target)
    ensures HasTarget(init + [r], t) <==> HasTarget(init, t) || r.target == t
  {
    var all := init + [r];
    assert all[|init|] == r && forall i :: 0 <= i < |init| ==> all[i] == init[i];
  }

  lemma {:induction false} ConfiguredProducts(ps: seq<ParameterRow>, p: Product)
    requires Configs(ps).Some?
    ensures p in Configs(ps).value <==> HasTarget(ps, Direct(p))
  {
    if ps != [] {
      var init, r := ps[..|ps| - 1], ps[|ps| - 1];
      ConfiguredProducts(init, p);
      HasTargetSnoc(init, r, Direct(p));
      assert ps == init + [r];
    }
  }

  /** Parameters are refused exactly when a row is faulty or a product has two. */
  lemma {:induction false} ParametersRefusedExactly(ps: seq<ParameterRow>)
    ensures Configs(ps).Some? <==> !FaultyParameter(ps) && !RepeatedProduct(ps)
  {
    if ps != [] {
      var init, r := ps[..|ps| - 1], ps[|ps| - 1];
      ParametersRefusedExactly(init);
      ParameterSnoc(init, r);
      GoodParameterIsFaultless(r);
      if Configs(init).Some? && r.target.Direct? {
        ConfiguredProducts(init, r.target.product);
      }
      assert ps == init + [r];
    }
  }

  /** Each product has the figures of its own row. */
  lemma {:induction false} OwnFigures(ps: seq<ParameterRow>, r: ParameterRow)
    requires Configs(ps).Some? && r in ps
    ensures GoodParameter(r) && r.target.product in Configs(ps).value
    ensures Configs(ps).value[r.target.product]
      == Config(r.units.value, r.onboarding.value, r.reserve.value, r.fee.value, r.margin.value)
  {
    var init, last := ps[..|ps| - 1], ps[|ps| - 1];
    if r in init {
      OwnFigures(init, r);
    } else {
      assert ps == init + [last];
    }
  }

  /** A month is four digits, a hyphen and a number from 01 to 12. */
  predicate Spells(m: string, y: string, n: nat) {
    |y| == 4 && AllDigits(y) && 1 <= n <= 12 && m == y + "-" + [Digit(n / 10), Digit(n % 10)]
  }

  lemma MonthFormatExactly(m: string)
    ensures MonthFormat(m) <==> exists y: string, n: nat :: Spells(m, y, n)
  {
    if MonthFormat(m) {
      var n := (m[5] as int - '0' as int) * 10 + (m[6] as int - '0' as int);
      assert m == m[..4] + "-" + [m[5], m[6]];
      assert Digit(n / 10) == m[5] && Digit(n % 10) == m[6];
      assert Spells(m, m[..4], n);
    }
  }

  /** Costs are converted by the row's own rate, which is one for CNY. */
  lemma ConvertedMeans(r: CostRow)
    requires !CostFault(r)
    ensures Converted(r) == r.amount.value * r.fx.value
    ensures r.currency == Cny ==> Converted(r) == r.amount.value
    ensures r.basis == ConfirmedZero ==> Converted(r) == 0.0
  {}

  /** The report is provisional as soon as one cost of the month is an estimate. */
  lemma {:induction false} EstimatedMeans(cs: seq<CostRow>)
    ensures Estimated(cs) <==> exists i :: 0 <= i < |cs| && cs[i].basis == Estimate
  {
    if cs != [] {
      var init := cs[..|cs| - 1];
      EstimatedMeans(init);
      if i :| 0 <= i < |init| && init[i].basis == Estimate {
        assert cs[i].basis == Estimate;
      }
      if i :| 0 <= i < |cs| && cs[i].basis == Estimate {
        assert i < |init| ==> init[i] == cs[i];
      }
    }
  }

  /** Some direct cost, or some allocation of a shared one, is on record for the cell. */
  predicate Evidence(cs: seq<CostRow>, xs: seq<AllocationRow>, p: Product, c: Category) {
    || (exists r :: r in cs && r.target == Direct(p) && r.category == Some(c))
    || (exists a :: a in xs && a.target == Direct(p) && a.id in SharedMap(cs) && SharedMap(cs)[a.id].0 == c)
  }

  lemma EvidenceIsCovered(cs: seq<CostRow>, xs: seq<AllocationRow>, p: Product, c: Category)
    ensures Evidence(cs, xs, p, c) <==> (p, c) in Covered(cs) + AllocatedCells(xs, SharedMap(cs))
  {
    if (p, c) in Covered(cs) {
      var r :| r in cs && r.target.Direct? && r.category.Some? && (p, c) == (r.target.product, r.category.value);
      assert r.target == Direct(p) && r.category == Some(c);
    }
    if (p, c) in AllocatedCells(xs, SharedMap(cs)) {
      var a :| a in xs && a.target.Direct? && a.id in SharedMap(cs)
        && (p, c) == (a.target.product, SharedMap(cs)[a.id].0);
      assert a.target == Direct(p);
    }
  }

  /** A month is reported exactly when it is written as one, no row of it is at fault or
      repeated, every shared cost is allocated in full, each product has evidence of each
      category and its parameters, and neither comes to less than nothing. */
  lemma AcceptedExactly(month: string, rows: seq<CostRow>, xs: seq<AllocationRow>, ps: seq<ParameterRow>)
    ensures var cs := CostsOf(rows, month);
      Accepted(month, cs, xs, ps) <==>
        && (exists y: string, n: nat :: Spells(month, y, n))
        && !FaultyCost(rows, month) && !RepeatedCost(rows, month)
        && !FaultyAllocation(xs, SharedMap(cs)) && !RepeatedAllocation(xs)
        && (forall id :: id in SharedMap(cs) ==> WeightOf(xs, id) == 1.0)
        && (forall p, c :: Evidence(cs, xs, p, c))
        && !FaultyParameter(ps) && !RepeatedProduct(ps)
        && HasTarget(ps, Direct(CustomerTools)) && HasTarget(ps, Direct(AiWorkspace))
        && CostOf(cs, xs, CustomerTools) >= 0.0 && CostOf(cs, xs, AiWorkspace) >= 0.0
  {
    var cs := CostsOf(rows, month);
    MonthFormatExactly(month);
    CostsRefusedExactly(rows, month);
    AllocationsRefusedExactly(xs, SharedMap(cs));
    ParametersRefusedExactly(ps);
    EvidenceEverywhere(cs, xs);
    if Configs(ps).Some? {
      ConfiguredProducts(ps, CustomerTools);
      ConfiguredProducts(ps, AiWorkspace);
    }
  }

  lemma EvidenceEverywhere(cs: seq<CostRow>, xs: seq<AllocationRow>)
    ensures (forall p, c :: Evidence(cs, xs, p, c))
      <==> forall p, c :: (p, c) in Covered(cs) + AllocatedCells(xs, SharedMap(cs))
  {
    forall p, c
      ensures Evidence(cs, xs, p, c) <==> (p, c) in Covered(cs) + AllocatedCells(xs, SharedMap(cs))
    {
      EvidenceIsCovered(cs, xs, p, c);
    }
  }
}
