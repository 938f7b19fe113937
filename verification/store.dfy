/**
  The accounting store: the load fallback, every action as a pure
  `AccountingState -> AccountingState` transformation, and the unit-cost and
  unit-profit selectors. Fresh ids (from `nanoid`) and the current time are parameters.
*/
module Store {
  import opened Wrappers
  import opened Accounting
  import Seqs

  /** A raw cost as `addProduct` receives it: a label and an amount only. */
  datatype CostDraft = CostDraft(name: string, amount: real)

  /** The argument of `addProduct`. */
  datatype NewProduct = NewProduct(
    title: string,
    pricePerItem: real,
    imageUrl: Option<string>,
    imagePublicId: Option<string>,
    rawCosts: seq<CostDraft>)

  /**
    `Partial<Product>`: every field may be absent. For the optional fields a present
    key may carry `undefined`, which the spread copies and so clears the field.
  */
  datatype ProductPatch = ProductPatch(
    id: Option<string>,
    title: Option<string>,
    pricePerItem: Option<real>,
    imageUrl: Option<Option<string>>,
    imagePublicId: Option<Option<string>>,
    rawCosts: Option<seq<RawCost>>)

  const NoProductChange: ProductPatch := ProductPatch(None, None, None, None, None, None)

  /** `Partial<RawCost>`. */
  datatype CostPatch = CostPatch(id: Option<string>, name: Option<string>, amount: Option<real>, mode: Option<Option<Mode>>)

  /** `Omit<RawCost, "id">`, the argument of `addRawCost`: here the mode is always given. */
  datatype CostInput = CostInput(name: string, amount: real, mode: Mode)

  // ---------------------------------------------------------------- persistence

  /**
    `loadState`: without a window, without stored text (absent or empty) or when the
    text does not parse, the state is empty; otherwise it is what the text parses to.
  */
  function LoadState(hasWindow: bool, stored: Option<string>, parse: string -> Option<AccountingState>): (r: AccountingState)
    ensures r == EmptyState || (hasWindow && stored.Some? && stored.value != "" && parse(stored.value) == Some(r))
    ensures (!hasWindow || stored.None? || stored == Some("")) ==> r == EmptyState
    ensures hasWindow && stored.Some? && stored.value != "" ==> r == parse(stored.value).GetOr(EmptyState)
  {
    if !hasWindow then EmptyState
    else match stored
      case None => EmptyState
      case Some(text) =>
        if text == "" then EmptyState
        else parse(text).GetOr(EmptyState)
  }

  /** `importState`: unparsable text leaves the state alone; a parsed state replaces it wholesale. */
  function ImportState(s: AccountingState, parsed: Option<AccountingState>): (r: AccountingState)
    ensures parsed.None? ==> r == s
    ensures parsed.Some? ==> r == parsed.value
  {
    parsed.GetOr(s)
  }

  // ---------------------------------------------------------------- products

  /** The raw costs `addProduct` builds: each draft keeps label and amount, gets its id, and has no mode. */
  function NewCosts(drafts: seq<CostDraft>, ids: seq<string>): (r: seq<RawCost>)
    requires |ids| == |drafts|
    ensures |r| == |drafts|
    ensures forall i :: 0 <= i < |r| ==> r[i] == RawCost(ids[i], drafts[i].name, drafts[i].amount, None)
  {
    seq(|drafts|, i requires 0 <= i < |drafts| => RawCost(ids[i], drafts[i].name, drafts[i].amount, None))
  }

  /** `addProduct`: appends one product with id `id`; the raw costs get the ids `costIds`, in order. */
  function AddProduct(s: AccountingState, np: NewProduct, id: string, costIds: seq<string>): (r: AccountingState)
    requires |costIds| == |np.rawCosts|
    ensures r.sales == s.sales
    ensures |r.products| == |s.products| + 1
    ensures r.products[..|s.products|] == s.products
    ensures var p := r.products[|s.products|];
      && p.id == id && p.title == np.title && p.pricePerItem == np.pricePerItem
      && p.imageUrl == np.imageUrl && p.imagePublicId == np.imagePublicId
      && |p.rawCosts| == |np.rawCosts|
      && forall i :: 0 <= i < |p.rawCosts| ==>
           p.rawCosts[i] == RawCost(costIds[i], np.rawCosts[i].name, np.rawCosts[i].amount, None)
  {
    var p := Product(id, np.title, np.pricePerItem, np.imageUrl, np.imagePublicId, NewCosts(np.rawCosts, costIds));
    assert (s.products + [p])[..|s.products|] == s.products;
    s.(products := s.products + [p])
  }

  /** `{ ...p, ...patch }`. */
  function Merge(p: Product, patch: ProductPatch): Product {
    Product(
      patch.id.GetOr(p.id),
      patch.title.GetOr(p.title),
      patch.pricePerItem.GetOr(p.pricePerItem),
      patch.imageUrl.GetOr(p.imageUrl),
      patch.imagePublicId.GetOr(p.imagePublicId),
      patch.rawCosts.GetOr(p.rawCosts))
  }

  /** `updateProduct`: merges `patch` into the products with id `id`; nothing else changes. */
  function UpdateProduct(s: AccountingState, id: string, patch: ProductPatch): (r: AccountingState)
    ensures r.sales == s.sales
    ensures |r.products| == |s.products|
    ensures forall i :: 0 <= i < |s.products| && s.products[i].id != id ==> r.products[i] == s.products[i]
    ensures forall i :: 0 <= i < |s.products| && s.products[i].id == id ==> r.products[i] == Merge(s.products[i], patch)
    ensures FreshProductId(s, id) ==> r == s
  {
    s.(products := Seqs.MapIf(s.products, (p: Product) => p.id == id, (p: Product) => Merge(p, patch)))
  }

  /** Keeps the products whose id is not `id`. */
  function NotProduct(id: string): Product -> bool {
    (p: Product) => p.id != id
  }

  /** Keeps the sales that do not refer to `id`. */
  function NotSaleOf(id: string): SalesEntry -> bool {
    (e: SalesEntry) => e.productId != id
  }

  /** `deleteProduct`: removes the product and, in cascade, exactly the sales that refer to it. */
  function DeleteProduct(s: AccountingState, id: string): (r: AccountingState)
    ensures forall i :: 0 <= i < |r.products| ==> r.products[i] in s.products && r.products[i].id != id
    ensures forall i :: 0 <= i < |s.products| && s.products[i].id != id ==> s.products[i] in r.products
    ensures forall k :: 0 <= k < |r.sales| ==> r.sales[k] in s.sales && r.sales[k].productId != id
    ensures forall k :: 0 <= k < |s.sales| && s.sales[k].productId != id ==> s.sales[k] in r.sales
    ensures forall p :: multiset(r.products)[p] == if p.id != id then multiset(s.products)[p] else 0
    ensures forall e :: multiset(r.sales)[e] == if e.productId != id then multiset(s.sales)[e] else 0
    ensures FreshProductId(r, id)
  {
    Seqs.FilterCounts(s.products, NotProduct(id));
    Seqs.FilterCounts(s.sales, NotSaleOf(id));
    AccountingState(Seqs.Filter(s.products, NotProduct(id)), Seqs.Filter(s.sales, NotSaleOf(id)))
  }

  // ---------------------------------------------------------------- raw costs

  /** `addRawCost`: appends a cost with id `costId` to the products with id `productId` only. */
  function AddRawCost(s: AccountingState, productId: string, input: CostInput, costId: string): (r: AccountingState)
    ensures r.sales == s.sales
    ensures |r.products| == |s.products|
    ensures forall i :: 0 <= i < |s.products| && s.products[i].id != productId ==> r.products[i] == s.products[i]
    ensures forall i :: 0 <= i < |s.products| && s.products[i].id == productId ==>
      r.products[i] == s.products[i].(rawCosts := s.products[i].rawCosts + [RawCost(costId, input.name, input.amount, Some(input.mode))])
    ensures FreshProductId(s, productId) ==> r == s
  {
    var rc := RawCost(costId, input.name, input.amount, Some(input.mode));
    s.(products := Seqs.MapIf(s.products, (p: Product) => p.id == productId, (p: Product) => p.(rawCosts := p.rawCosts + [rc])))
  }

  /** `{ ...rc, ...patch }`. */
  function MergeCost(rc: RawCost, patch: CostPatch): RawCost {
    RawCost(patch.id.GetOr(rc.id), patch.name.GetOr(rc.name), patch.amount.GetOr(rc.amount), patch.mode.GetOr(rc.mode))
  }

  /** `updateRawCost`: merges `patch` into the costs with id `costId` of the products with id `productId`. */
  function UpdateRawCost(s: AccountingState, productId: string, costId: string, patch: CostPatch): (r: AccountingState)
    ensures r.sales == s.sales
    ensures |r.products| == |s.products|
    ensures forall i :: 0 <= i < |s.products| && s.products[i].id != productId ==> r.products[i] == s.products[i]
    ensures forall i :: 0 <= i < |s.products| && s.products[i].id == productId ==>
      var before := s.products[i].rawCosts;
      var after := r.products[i].rawCosts;
      && r.products[i] == s.products[i].(rawCosts := after)
      && |after| == |before|
      && (forall j :: 0 <= j < |before| && before[j].id != costId ==> after[j] == before[j])
      && (forall j :: 0 <= j < |before| && before[j].id == costId ==> after[j] == MergeCost(before[j], patch))
    ensures FreshProductId(s, productId) ==> r == s
  {
    s.(products := Seqs.MapIf(s.products, (p: Product) => p.id == productId,
      (p: Product) => p.(rawCosts := Seqs.MapIf(p.rawCosts, (rc: RawCost) => rc.id == costId, (rc: RawCost) => MergeCost(rc, patch)))))
  }

  /** Keeps the costs whose id is not `costId`. */
  function NotCost(costId: string): RawCost -> bool {
    (rc: RawCost) => rc.id != costId
  }

  /**
    `deleteRawCost`: removes the costs with id `costId` from the products with id
    `productId` only; the remaining costs keep their order (`StoreLaws.DeleteRawCostKeepsCostOrder`).
  */
  function DeleteRawCost(s: AccountingState, productId: string, costId: string): (r: AccountingState)
    ensures r.sales == s.sales
    ensures |r.products| == |s.products|
    ensures forall i :: 0 <= i < |s.products| && s.products[i].id != productId ==> r.products[i] == s.products[i]
    ensures forall i :: 0 <= i < |s.products| && s.products[i].id == productId ==>
      var before := s.products[i].rawCosts;
      var after := r.products[i].rawCosts;
      && r.products[i] == s.products[i].(rawCosts := after)
      && (forall j :: 0 <= j < |after| ==> after[j] in before && after[j].id != costId)
      && (forall j :: 0 <= j < |before| && before[j].id != costId ==> before[j] in after)
      && (forall rc :: multiset(after)[rc] == if rc.id != costId then multiset(before)[rc] else 0)
    ensures FreshProductId(s, productId) ==> r == s
  {
    forall p: Product {
      Seqs.FilterCounts(p.rawCosts, NotCost(costId));
    }
    s.(products := Seqs.MapIf(s.products, (p: Product) => p.id == productId,
      (p: Product) => p.(rawCosts := Seqs.Filter(p.rawCosts, NotCost(costId)))))
  }

  // ---------------------------------------------------------------- sales

  /** `addSalesEntry`: appends one entry stamped `now`; products are untouched and the quantity is not checked. */
  function AddSalesEntry(s: AccountingState, productId: string, quantitySold: real, now: string): (r: AccountingState)
    ensures r.products == s.products
    ensures |r.sales| == |s.sales| + 1
    ensures r.sales[..|s.sales|] == s.sales
    ensures r.sales[|s.sales|] == SalesEntry(productId, quantitySold, now)
  {
    var e := SalesEntry(productId, quantitySold, now);
    assert (s.sales + [e])[..|s.sales|] == s.sales;
    s.(sales := s.sales + [e])
  }

  // ---------------------------------------------------------------- selectors

  /** `computeUnitCost`: the amounts of the product's per-unit or mode-less costs; 0 for an unknown id. */
  function UnitCost(s: AccountingState, productId: string): (r: real)
    ensures FindProduct(s.products, productId).None? ==> r == 0.0
    ensures FindProduct(s.products, productId).Some? ==> r == ModeSum(FindProduct(s.products, productId).value.rawCosts, PerUnit)
  {
    match FindProduct(s.products, productId)
    case None => 0.0
    case Some(p) =>
      PerUnitCostIsModeSum(p.rawCosts);
      PerUnitCost(p.rawCosts)
  }

  /** `computeUnitProfit`: price minus every cost of the product, whatever its mode; 0 for an unknown id. */
  function UnitProfit(s: AccountingState, productId: string): (r: real)
    ensures FindProduct(s.products, productId).None? ==> r == 0.0
    ensures FindProduct(s.products, productId).Some? ==>
      var p := FindProduct(s.products, productId).value;
      r == p.pricePerItem - ModeSum(p.rawCosts, PerUnit) - ModeSum(p.rawCosts, Total)
  {
    match FindProduct(s.products, productId)
    case None => 0.0
    case Some(p) =>
      SumAmountsSplitsByMode(p.rawCosts);
      p.pricePerItem - SumAmounts(p.rawCosts)
  }
}
