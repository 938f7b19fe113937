/**
  Properties of the store's actions: frame and inverse laws, idempotence of the
  merges, the cascade on delete, and preservation of the identity invariant when
  the ids handed out are fresh.
*/
module StoreLaws {
  import opened Wrappers
  import opened Accounting
  import opened Store
  import Seqs

  /** No id occurs twice. */
  predicate Distinct(ids: seq<string>) {
    forall i, j :: 0 <= i < j < |ids| ==> ids[i] != ids[j]
  }

  /** `costId` is used by no raw cost of a product with id `productId`. */
  predicate FreshCostId(s: AccountingState, productId: string, costId: string) {
    forall i, j :: 0 <= i < |s.products| && s.products[i].id == productId && 0 <= j < |s.products[i].rawCosts|
      ==> s.products[i].rawCosts[j].id != costId
  }

  // ---------------------------------------------------------------- addProduct

  lemma AddProductPreservesWellFormed(s: AccountingState, np: NewProduct, id: string, costIds: seq<string>)
    requires |costIds| == |np.rawCosts|
    requires WellFormed(s) && FreshProductId(s, id) && Distinct(costIds)
    ensures WellFormed(AddProduct(s, np, id, costIds))
  {
    var r := AddProduct(s, np, id, costIds);
    assert forall i :: 0 <= i < |s.products| ==> r.products[i] == s.products[..|s.products|][i];
  }

  /**
    The costs of a freshly added product have no mode, so all of them count as
    per-unit: its unit cost is the sum of all its amounts and unit cost plus unit
    profit is its price.
  */
  lemma AddedProductUnitFigures(s: AccountingState, np: NewProduct, id: string, costIds: seq<string>)
    requires |costIds| == |np.rawCosts|
    requires FreshProductId(s, id)
    ensures var r := AddProduct(s, np, id, costIds);
      && UnitCost(r, id) == SumAmounts(r.products[|s.products|].rawCosts)
      && UnitCost(r, id) + UnitProfit(r, id) == np.pricePerItem
  {
    var r := AddProduct(s, np, id, costIds);
    var p := r.products[|s.products|];
    assert forall j :: 0 <= j < |s.products| ==> r.products[j] == s.products[..|s.products|][j];
    assert FindIndex(r.products, id) == |s.products|;
    ModelessHasNoTotal(p.rawCosts);
  }

  /** Deleting a product that was just added, and that no sale refers to, restores the state. */
  lemma DeleteUndoesAddProduct(s: AccountingState, np: NewProduct, id: string, costIds: seq<string>)
    requires |costIds| == |np.rawCosts|
    requires FreshProductId(s, id)
    requires forall k :: 0 <= k < |s.sales| ==> s.sales[k].productId != id
    ensures DeleteProduct(AddProduct(s, np, id, costIds), id) == s
  {
    var r := AddProduct(s, np, id, costIds);
    var p := r.products[|s.products|];
    assert r.products == s.products + [p];
    Seqs.FilterAppend(s.products, [p], NotProduct(id));
    Seqs.FilterKeepsAll(s.products, NotProduct(id));
    assert Seqs.Filter([p], NotProduct(id)) == [];
    Seqs.FilterKeepsAll(s.sales, NotSaleOf(id));
  }

  // ---------------------------------------------------------------- updateProduct

  /** Applying the same patch twice is applying it once. */
  lemma UpdateProductIdempotent(s: AccountingState, id: string, patch: ProductPatch)
    ensures UpdateProduct(UpdateProduct(s, id, patch), id, patch) == UpdateProduct(s, id, patch)
  {
    var r1 := UpdateProduct(s, id, patch);
    var r2 := UpdateProduct(r1, id, patch);
    forall i | 0 <= i < |s.products|
      ensures r2.products[i] == r1.products[i]
    {
      if s.products[i].id == id && r1.products[i].id == id {
        assert r2.products[i] == Merge(Merge(s.products[i], patch), patch);
      }
    }
    assert r2.products == r1.products;
  }

  /** With unique ids and a patch that keeps the id, the product is found afterwards with the patch merged in. */
  lemma UpdatedProductIsFound(s: AccountingState, i: int, patch: ProductPatch)
    requires UniqueProductIds(s.products)
    requires 0 <= i < |s.products|
    requires patch.id.None?
    ensures FindProduct(UpdateProduct(s, s.products[i].id, patch).products, s.products[i].id)
         == Some(Merge(s.products[i], patch))
  {
    var id := s.products[i].id;
    var r := UpdateProduct(s, id, patch);
    FindIndexSameIds(r.products, s.products, id);
    FindUnique(s.products, i);
  }

  lemma UpdateProductPreservesWellFormed(s: AccountingState, id: string, patch: ProductPatch)
    requires WellFormed(s)
    requires patch.id.None?
    requires patch.rawCosts.Some? ==> UniqueCostIds(patch.rawCosts.value)
    ensures WellFormed(UpdateProduct(s, id, patch))
  {
  }

  // ---------------------------------------------------------------- deleteProduct

  lemma DeleteProductPreservesWellFormed(s: AccountingState, id: string)
    requires WellFormed(s)
    ensures WellFormed(DeleteProduct(s, id))
  {
    var r := DeleteProduct(s, id);
    forall i, j | 0 <= i < j < |r.products|
      ensures r.products[i].id != r.products[j].id
    {
      var a, b := Seqs.FilterKeepsOrder(s.products, NotProduct(id), i, j);
    }
    forall i | 0 <= i < |r.products|
      ensures UniqueCostIds(r.products[i].rawCosts)
    {
      assert r.products[i] in s.products;
    }
  }

  /** The cascade keeps referential integrity: if every sale had its product, every remaining sale still does. */
  lemma DeleteProductKeepsSalesResolved(s: AccountingState, id: string)
    requires NoDanglingSales(s)
    ensures NoDanglingSales(DeleteProduct(s, id))
  {
    var r := DeleteProduct(s, id);
    forall k | 0 <= k < |r.sales|
      ensures FindIndex(r.products, r.sales[k].productId) >= 0
    {
      var e := r.sales[k];
      assert e in s.sales;
      var k' :| 0 <= k' < |s.sales| && s.sales[k'] == e;
      var j := FindIndex(s.products, e.productId);
      assert s.products[j] in r.products;
      var j' :| 0 <= j' < |r.products| && r.products[j'] == s.products[j];
    }
  }

  /** The products that survive a delete keep their relative order. */
  lemma DeleteProductKeepsProductOrder(s: AccountingState, id: string, i: int, j: int) returns (a: int, b: int)
    requires 0 <= i < j < |DeleteProduct(s, id).products|
    ensures 0 <= a < b < |s.products|
    ensures s.products[a] == DeleteProduct(s, id).products[i] && s.products[b] == DeleteProduct(s, id).products[j]
  {
    a, b := Seqs.FilterKeepsOrder(s.products, NotProduct(id), i, j);
  }

  /** The sales that survive a delete keep their relative order. */
  lemma DeleteProductKeepsSaleOrder(s: AccountingState, id: string, i: int, j: int) returns (a: int, b: int)
    requires 0 <= i < j < |DeleteProduct(s, id).sales|
    ensures 0 <= a < b < |s.sales|
    ensures s.sales[a] == DeleteProduct(s, id).sales[i] && s.sales[b] == DeleteProduct(s, id).sales[j]
  {
    a, b := Seqs.FilterKeepsOrder(s.sales, NotSaleOf(id), i, j);
  }

  /** The costs that survive a cost delete keep their relative order within their product. */
  lemma DeleteRawCostKeepsCostOrder(s: AccountingState, productId: string, costId: string, p: int, i: int, j: int) returns (a: int, b: int)
    requires 0 <= p < |s.products| && s.products[p].id == productId
    requires 0 <= i < j < |DeleteRawCost(s, productId, costId).products[p].rawCosts|
    ensures 0 <= a < b < |s.products[p].rawCosts|
    ensures var before, after := s.products[p].rawCosts, DeleteRawCost(s, productId, costId).products[p].rawCosts;
      before[a] == after[i] && before[b] == after[j]
  {
    var before := s.products[p].rawCosts;
    assert DeleteRawCost(s, productId, costId).products[p].rawCosts == Seqs.Filter(before, NotCost(costId));
    a, b := Seqs.FilterKeepsOrder(before, NotCost(costId), i, j);
  }

  /** A sale recorded for a product disappears again when that product is deleted. */
  lemma DeleteProductAbsorbsSale(s: AccountingState, id: string, quantitySold: real, now: string)
    ensures DeleteProduct(AddSalesEntry(s, id, quantitySold, now), id) == DeleteProduct(s, id)
  {
    var e := SalesEntry(id, quantitySold, now);
    assert AddSalesEntry(s, id, quantitySold, now).sales == s.sales + [e];
    Seqs.FilterAppend(s.sales, [e], NotSaleOf(id));
    assert Seqs.Filter([e], NotSaleOf(id)) == [];
  }

  // ---------------------------------------------------------------- raw costs

  /** Deleting a raw cost that was just added under a fresh id restores the state. */
  lemma DeleteRawCostUndoesAdd(s: AccountingState, productId: string, input: CostInput, costId: string)
    requires FreshCostId(s, productId, costId)
    ensures DeleteRawCost(AddRawCost(s, productId, input, costId), productId, costId) == s
  {
    var r1 := AddRawCost(s, productId, input, costId);
    var r2 := DeleteRawCost(r1, productId, costId);
    var rc := RawCost(costId, input.name, input.amount, Some(input.mode));
    forall i | 0 <= i < |s.products|
      ensures r2.products[i] == s.products[i]
    {
      if s.products[i].id == productId {
        var cs := s.products[i].rawCosts;
        assert r1.products[i].rawCosts == cs + [rc];
        Seqs.FilterAppend(cs, [rc], NotCost(costId));
        Seqs.FilterKeepsAll(cs, NotCost(costId));
        assert Seqs.Filter([rc], NotCost(costId)) == [];
        assert r2.products[i].rawCosts == Seqs.Filter(cs + [rc], NotCost(costId));
      }
    }
    assert r2.products == s.products;
  }

  lemma AddRawCostPreservesWellFormed(s: AccountingState, productId: string, input: CostInput, costId: string)
    requires WellFormed(s) && FreshCostId(s, productId, costId)
    ensures WellFormed(AddRawCost(s, productId, input, costId))
  {
    var r := AddRawCost(s, productId, input, costId);
    forall i | 0 <= i < |r.products|
      ensures UniqueCostIds(r.products[i].rawCosts)
    {
      if s.products[i].id == productId {
        var cs := s.products[i].rawCosts;
        assert forall j :: 0 <= j < |cs| ==> r.products[i].rawCosts[j] == cs[j];
      }
    }
  }

  /** Applying the same cost patch twice is applying it once. */
  lemma UpdateRawCostIdempotent(s: AccountingState, productId: string, costId: string, patch: CostPatch)
    ensures UpdateRawCost(UpdateRawCost(s, productId, costId, patch), productId, costId, patch)
         == UpdateRawCost(s, productId, costId, patch)
  {
    var r1 := UpdateRawCost(s, productId, costId, patch);
    var r2 := UpdateRawCost(r1, productId, costId, patch);
    forall i | 0 <= i < |s.products|
      ensures r2.products[i] == r1.products[i]
    {
      if s.products[i].id == productId {
        var c1 := r1.products[i].rawCosts;
        var c2 := r2.products[i].rawCosts;
        forall j | 0 <= j < |c1|
          ensures c2[j] == c1[j]
        {
          if s.products[i].rawCosts[j].id == costId && c1[j].id == costId {
            assert c2[j] == MergeCost(MergeCost(s.products[i].rawCosts[j], patch), patch);
          }
        }
        assert c2 == c1;
      }
    }
    assert r2.products == r1.products;
  }

  lemma UpdateRawCostPreservesWellFormed(s: AccountingState, productId: string, costId: string, patch: CostPatch)
    requires WellFormed(s) && patch.id.None?
    ensures WellFormed(UpdateRawCost(s, productId, costId, patch))
  {
    var r := UpdateRawCost(s, productId, costId, patch);
    forall i | 0 <= i < |r.products|
      ensures UniqueCostIds(r.products[i].rawCosts)
    {
      if s.products[i].id == productId {
        assert forall j :: 0 <= j < |s.products[i].rawCosts| ==> r.products[i].rawCosts[j].id == s.products[i].rawCosts[j].id;
      }
    }
  }

  lemma DeleteRawCostPreservesWellFormed(s: AccountingState, productId: string, costId: string)
    requires WellFormed(s)
    ensures WellFormed(DeleteRawCost(s, productId, costId))
  {
    var r := DeleteRawCost(s, productId, costId);
    forall i | 0 <= i < |r.products|
      ensures UniqueCostIds(r.products[i].rawCosts)
    {
      if s.products[i].id == productId {
        var cs := s.products[i].rawCosts;
        assert r.products[i].rawCosts == Seqs.Filter(cs, NotCost(costId));
        forall a, b | 0 <= a < b < |r.products[i].rawCosts|
          ensures r.products[i].rawCosts[a].id != r.products[i].rawCosts[b].id
        {
          var a', b' := Seqs.FilterKeepsOrder(cs, NotCost(costId), a, b);
        }
      }
    }
  }

  /** A patch that touches neither amount, mode nor id changes no product's unit cost or unit profit. */
  lemma CostRelabelKeepsUnitFigures(s: AccountingState, productId: string, costId: string, patch: CostPatch, x: string)
    requires patch.id.None? && patch.amount.None? && patch.mode.None?
    ensures UnitCost(UpdateRawCost(s, productId, costId, patch), x) == UnitCost(s, x)
    ensures UnitProfit(UpdateRawCost(s, productId, costId, patch), x) == UnitProfit(s, x)
  {
    var r := UpdateRawCost(s, productId, costId, patch);
    FindIndexSameIds(r.products, s.products, x);
    var k := FindIndex(s.products, x);
    if k >= 0 {
      var a := r.products[k].rawCosts;
      var b := s.products[k].rawCosts;
      SameAmountsAndModes(a, b, PerUnit);
      SameAmountsAndModes(a, b, Total);
    }
  }

  // ---------------------------------------------------------------- selectors

  /**
    The deliberate asymmetry of the selectors: price minus unit profit exceeds the unit
    cost by exactly the flat-total costs.
  */
  lemma UnitCostProfitGap(s: AccountingState, productId: string)
    requires FindProduct(s.products, productId).Some?
    ensures var p := FindProduct(s.products, productId).value;
      p.pricePerItem - UnitProfit(s, productId) - UnitCost(s, productId) == ModeSum(p.rawCosts, Total)
  {
  }

  /** With unique ids, the selectors of a listed product read its own costs. */
  lemma UnitFiguresAt(s: AccountingState, i: int)
    requires UniqueProductIds(s.products)
    requires 0 <= i < |s.products|
    ensures var p := s.products[i];
      && UnitCost(s, p.id) == ModeSum(p.rawCosts, PerUnit)
      && UnitProfit(s, p.id) == p.pricePerItem - ModeSum(p.rawCosts, PerUnit) - ModeSum(p.rawCosts, Total)
  {
    FindUnique(s.products, i);
  }

  // ---------------------------------------------------------------- any sequence of actions

  /** One call of a store action, with the fresh ids and the time it is given. */
  datatype Action =
    | AddProductAction(np: NewProduct, id: string, costIds: seq<string>)
    | UpdateProductAction(id: string, patch: ProductPatch)
    | DeleteProductAction(id: string)
    | AddRawCostAction(productId: string, input: CostInput, costId: string)
    | UpdateRawCostAction(productId: string, costId: string, costPatch: CostPatch)
    | DeleteRawCostAction(productId: string, costId: string)
    | AddSalesEntryAction(productId: string, quantitySold: real, now: string)
    | ImportAction(parsed: Option<AccountingState>)

  /** `addProduct` is handed one id per raw cost. */
  predicate WellShaped(a: Action) {
    a.AddProductAction? ==> |a.costIds| == |a.np.rawCosts|
  }

  /** The state after one action. */
  function Apply(s: AccountingState, a: Action): AccountingState
    requires WellShaped(a)
  {
    match a
    case AddProductAction(np, id, costIds) => AddProduct(s, np, id, costIds)
    case UpdateProductAction(id, patch) => UpdateProduct(s, id, patch)
    case DeleteProductAction(id) => DeleteProduct(s, id)
    case AddRawCostAction(productId, input, costId) => AddRawCost(s, productId, input, costId)
    case UpdateRawCostAction(productId, costId, patch) => UpdateRawCost(s, productId, costId, patch)
    case DeleteRawCostAction(productId, costId) => DeleteRawCost(s, productId, costId)
    case AddSalesEntryAction(productId, quantitySold, now) => AddSalesEntry(s, productId, quantitySold, now)
    case ImportAction(parsed) => ImportState(s, parsed)
  }

  /**
    What the callers guarantee for the ids to stay unique: fresh ids from the id
    generator, patches that never set an id, replacement cost lists without repeated
    ids, and imported states that are themselves well formed.
  */
  predicate Admissible(s: AccountingState, a: Action) {
    && WellShaped(a)
    && match a
       case AddProductAction(np, id, costIds) => FreshProductId(s, id) && Distinct(costIds)
       case UpdateProductAction(_, patch) =>
         patch.id.None? && (patch.rawCosts.Some? ==> UniqueCostIds(patch.rawCosts.value))
       case AddRawCostAction(productId, _, costId) => FreshCostId(s, productId, costId)
       case UpdateRawCostAction(_, _, patch) => patch.id.None?
       case ImportAction(parsed) => parsed.Some? ==> WellFormed(parsed.value)
       case _ => true
  }

  /** Every action of the run is admissible in the state it is applied to. */
  predicate AdmissibleRun(s: AccountingState, actions: seq<Action>)
    decreases |actions|
  {
    |actions| == 0 || (Admissible(s, actions[0]) && AdmissibleRun(Apply(s, actions[0]), actions[1..]))
  }

  /** The state after a run of actions, applied in order. */
  function Run(s: AccountingState, actions: seq<Action>): AccountingState
    requires AdmissibleRun(s, actions)
    decreases |actions|
  {
    if |actions| == 0 then s else Run(Apply(s, actions[0]), actions[1..])
  }

  /** One admissible action keeps product ids and raw-cost ids unique. */
  lemma ApplyPreservesWellFormed(s: AccountingState, a: Action)
    requires WellFormed(s) && Admissible(s, a)
    ensures WellFormed(Apply(s, a))
  {
    match a
    case AddProductAction(np, id, costIds) => AddProductPreservesWellFormed(s, np, id, costIds);
    case UpdateProductAction(id, patch) => UpdateProductPreservesWellFormed(s, id, patch);
    case DeleteProductAction(id) => DeleteProductPreservesWellFormed(s, id);
    case AddRawCostAction(productId, input, costId) => AddRawCostPreservesWellFormed(s, productId, input, costId);
    case UpdateRawCostAction(productId, costId, patch) => UpdateRawCostPreservesWellFormed(s, productId, costId, patch);
    case DeleteRawCostAction(productId, costId) => DeleteRawCostPreservesWellFormed(s, productId, costId);
    case AddSalesEntryAction(_, _, _) =>
    case ImportAction(_) =>
  }

  /** Product ids and raw-cost ids stay unique over any admissible run of actions. */
  lemma {:induction false} RunPreservesWellFormed(s: AccountingState, actions: seq<Action>)
    requires WellFormed(s) && AdmissibleRun(s, actions)
    ensures WellFormed(Run(s, actions))
    decreases |actions|
  {
    if |actions| > 0 {
      ApplyPreservesWellFormed(s, actions[0]);
      RunPreservesWellFormed(Apply(s, actions[0]), actions[1..]);
    }
  }

  /**
    Start-up keeps the identity invariant: the empty fallback is well formed, and so is
    a loaded state whenever the stored text parses to a well-formed state.
  */
  lemma LoadStateWellFormed(hasWindow: bool, stored: Option<string>, parse: string -> Option<AccountingState>)
    requires hasWindow && stored.Some? && stored.value != "" && parse(stored.value).Some? ==> WellFormed(parse(stored.value).value)
    ensures WellFormed(EmptyState)
    ensures WellFormed(LoadState(hasWindow, stored, parse))
  {
  }

  /** From start-up on, ids stay unique over any admissible run of actions. */
  lemma StartUpRunWellFormed(hasWindow: bool, stored: Option<string>, parse: string -> Option<AccountingState>, actions: seq<Action>)
    requires hasWindow && stored.Some? && stored.value != "" && parse(stored.value).Some? ==> WellFormed(parse(stored.value).value)
    requires AdmissibleRun(LoadState(hasWindow, stored, parse), actions)
    ensures WellFormed(Run(LoadState(hasWindow, stored, parse), actions))
  {
    LoadStateWellFormed(hasWindow, stored, parse);
    RunPreservesWellFormed(LoadState(hasWindow, stored, parse), actions);
  }
}
