/**
  The domain model of the accounting store: products with their raw costs, sales
  entries, and the aggregate state that is persisted as one blob.
  Amounts, prices and quantities are exact reals in place of JavaScript numbers.
*/
module Accounting {
  import opened Wrappers
  import Seqs

  /** How a raw cost applies: per unit sold, or once as a flat total. */
  datatype Mode = PerUnit | Total

  /** One cost line of a product; `name` is the source's `label` field. `mode` is absent on costs created by `addProduct`. */
  datatype RawCost = RawCost(id: string, name: string, amount: real, mode: Option<Mode>)

  /**
    A sellable item. The image URL and the image host's public id are independently
    optional; the raw costs are ordered, since the UI edits them by position.
  */
  datatype Product = Product(
    id: string,
    title: string,
    pricePerItem: real,
    imageUrl: Option<string>,
    imagePublicId: Option<string>,
    rawCosts: seq<RawCost>)

  /** A recorded sale: a product id (a weak reference), a quantity and an ISO-8601 timestamp text. */
  datatype SalesEntry = SalesEntry(productId: string, quantitySold: real, soldAt: string)

  /** The whole persisted state: exactly the products and the sales, in order. */
  datatype AccountingState = AccountingState(products: seq<Product>, sales: seq<SalesEntry>)

  const EmptyState: AccountingState := AccountingState([], [])

  /** The mode a cost is treated as everywhere it is read: an absent mode means per-unit. */
  function EffectiveMode(rc: RawCost): Mode {
    rc.mode.GetOr(PerUnit)
  }

  /** `(rc.mode ?? "per-unit") === "per-unit"` */
  predicate CountsPerUnit(rc: RawCost) {
    EffectiveMode(rc) == PerUnit
  }

  /** `costs.reduce((sum, rc) => sum + rc.amount, 0)`: the total of all amounts, whatever their mode. */
  function SumAmounts(costs: seq<RawCost>): real
    decreases |costs|
  {
    if |costs| == 0 then 0.0 else costs[0].amount + SumAmounts(costs[1..])
  }

  /** The per-unit cost as the source computes it: filter the per-unit costs, then add their amounts. */
  function PerUnitCost(costs: seq<RawCost>): real {
    SumAmounts(Seqs.Filter(costs, CountsPerUnit))
  }

  /** Reference definition: the amounts of the costs whose effective mode is `m`, in one pass. */
  function ModeSum(costs: seq<RawCost>, m: Mode): real
    decreases |costs|
  {
    if |costs| == 0 then 0.0
    else (if EffectiveMode(costs[0]) == m then costs[0].amount else 0.0) + ModeSum(costs[1..], m)
  }

  /** Filtering then summing adds up exactly the per-unit (or mode-less) costs. */
  lemma {:induction false} PerUnitCostIsModeSum(costs: seq<RawCost>)
    ensures PerUnitCost(costs) == ModeSum(costs, PerUnit)
    decreases |costs|
  {
    if |costs| > 0 {
      PerUnitCostIsModeSum(costs[1..]);
    }
  }

  /** All costs split into the per-unit ones and the flat totals. */
  lemma {:induction false} SumAmountsSplitsByMode(costs: seq<RawCost>)
    ensures SumAmounts(costs) == ModeSum(costs, PerUnit) + ModeSum(costs, Total)
    decreases |costs|
  {
    if |costs| > 0 {
      SumAmountsSplitsByMode(costs[1..]);
    }
  }

  /** Two cost lists that agree on every amount and effective mode have the same totals per mode. */
  lemma {:induction false} SameAmountsAndModes(a: seq<RawCost>, b: seq<RawCost>, m: Mode)
    requires |a| == |b|
    requires forall j :: 0 <= j < |a| ==> a[j].amount == b[j].amount && EffectiveMode(a[j]) == EffectiveMode(b[j])
    ensures ModeSum(a, m) == ModeSum(b, m)
    ensures SumAmounts(a) == SumAmounts(b)
    decreases |a|
  {
    if |a| > 0 {
      SameAmountsAndModes(a[1..], b[1..], m);
    }
  }

  /** Costs without a mode are all per-unit: none of them is a flat total. */
  lemma {:induction false} ModelessHasNoTotal(costs: seq<RawCost>)
    requires forall j :: 0 <= j < |costs| ==> costs[j].mode == None
    ensures ModeSum(costs, Total) == 0.0
    ensures ModeSum(costs, PerUnit) == SumAmounts(costs)
    decreases |costs|
  {
    if |costs| > 0 {
      ModelessHasNoTotal(costs[1..]);
    }
  }

  /** Appending costs adds their amounts, in total and per mode. */
  lemma {:induction false} SumsAppend(a: seq<RawCost>, b: seq<RawCost>, m: Mode)
    ensures SumAmounts(a + b) == SumAmounts(a) + SumAmounts(b)
    ensures ModeSum(a + b, m) == ModeSum(a, m) + ModeSum(b, m)
    decreases |a|
  {
    if |a| > 0 {
      assert (a + b)[1..] == a[1..] + b;
      SumsAppend(a[1..], b, m);
    } else {
      assert a + b == b;
    }
  }

  /** Changing one cost line changes the totals by exactly that line's difference. */
  lemma {:induction false} SumsPointChange(a: seq<RawCost>, b: seq<RawCost>, idx: int, m: Mode)
    requires |a| == |b| && 0 <= idx < |a|
    requires forall j :: 0 <= j < |a| && j != idx ==> a[j] == b[j]
    ensures SumAmounts(b) == SumAmounts(a) - a[idx].amount + b[idx].amount
    ensures ModeSum(b, m) == ModeSum(a, m)
      - (if EffectiveMode(a[idx]) == m then a[idx].amount else 0.0)
      + (if EffectiveMode(b[idx]) == m then b[idx].amount else 0.0)
    decreases |a|
  {
    if idx > 0 {
      SumsPointChange(a[1..], b[1..], idx - 1, m);
    } else {
      assert a[1..] == b[1..];
    }
  }

  /** `products.findIndex(p => p.id === id)`: the first position holding `id`, or -1. */
  function FindIndex(products: seq<Product>, id: string): (i: int)
    ensures -1 <= i < |products|
    ensures i == -1 <==> forall j :: 0 <= j < |products| ==> products[j].id != id
    ensures i >= 0 ==> products[i].id == id && forall j :: 0 <= j < i ==> products[j].id != id
    decreases |products|
  {
    if |products| == 0 then -1
    else if products[0].id == id then 0
    else
      var i := FindIndex(products[1..], id);
      if i == -1 then -1 else i + 1
  }

  /** `products.find(p => p.id === id)`: the first product with that id, if any. */
  function FindProduct(products: seq<Product>, id: string): (r: Option<Product>)
    ensures r.None? <==> forall j :: 0 <= j < |products| ==> products[j].id != id
    ensures r.Some? ==> r.value.id == id && r.value in products
    ensures r.Some? ==> exists i :: 0 <= i < |products| && products[i] == r.value && forall j :: 0 <= j < i ==> products[j].id != id
  {
    var i := FindIndex(products, id);
    if i == -1 then None else Some(products[i])
  }

  /** The lookup depends on the ids alone. */
  lemma {:induction false} FindIndexSameIds(a: seq<Product>, b: seq<Product>, id: string)
    requires |a| == |b|
    requires forall j :: 0 <= j < |a| ==> a[j].id == b[j].id
    ensures FindIndex(a, id) == FindIndex(b, id)
    decreases |a|
  {
    if |a| > 0 {
      FindIndexSameIds(a[1..], b[1..], id);
    }
  }

  /** No two products share an id. */
  predicate UniqueProductIds(products: seq<Product>) {
    forall i, j :: 0 <= i < j < |products| ==> products[i].id != products[j].id
  }

  /** No two raw costs of one product share an id. */
  predicate UniqueCostIds(costs: seq<RawCost>) {
    forall i, j :: 0 <= i < j < |costs| ==> costs[i].id != costs[j].id
  }

  /** The identity invariant: product ids are unique, and raw-cost ids are unique within each product. */
  predicate WellFormed(s: AccountingState) {
    && UniqueProductIds(s.products)
    && forall i :: 0 <= i < |s.products| ==> UniqueCostIds(s.products[i].rawCosts)
  }

  /** Every sale refers to a product that exists. */
  predicate NoDanglingSales(s: AccountingState) {
    forall k :: 0 <= k < |s.sales| ==> FindIndex(s.products, s.sales[k].productId) >= 0
  }

  /** `id` is used by no product. */
  predicate FreshProductId(s: AccountingState, id: string) {
    forall i :: 0 <= i < |s.products| ==> s.products[i].id != id
  }

  /** With unique ids, looking a product up by its id finds that very product. */
  lemma FindUnique(products: seq<Product>, i: int)
    requires UniqueProductIds(products)
    requires 0 <= i < |products|
    ensures FindIndex(products, products[i].id) == i
    ensures FindProduct(products, products[i].id) == Some(products[i])
  {
  }
}
