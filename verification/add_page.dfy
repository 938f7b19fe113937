/**
  The Add page: the running totals of the quantities typed so far, committing them as
  sales, reordering products by drag and drop, and dispatching a card's save patch to
  store updates. The quantity map's iteration order is given as a sequence of entries.
*/
module AddPage {
  import opened Wrappers
  import opened Accounting
  import Store
  import Seqs
  import ProductCard

  // ---------------------------------------------------------------- pending totals

  /**
    `quantities[id] ?? 0` as arithmetic sees it: an absent entry is 0, and a blank
    entry (the empty text) also multiplies as 0.
  */
  function QtyOf(quantities: map<string, ProductCard.Quantity>, id: string): nat {
    if id in quantities && quantities[id].Count? then quantities[id].n else 0
  }

  /** The footer figures. */
  datatype Totals = Totals(revenue: real, cost: real, profit: real)

  /** One product's revenue: its typed quantity at list price. */
  function LineRevenue(quantities: map<string, ProductCard.Quantity>, p: Product): real {
    QtyOf(quantities, p.id) as real * p.pricePerItem
  }

  /** One product's cost: its typed quantity times its per-unit (or mode-less) costs. */
  function LineCost(quantities: map<string, ProductCard.Quantity>, p: Product): real {
    QtyOf(quantities, p.id) as real * ModeSum(p.rawCosts, PerUnit)
  }

  /** Reference definition: the revenue of the typed quantities at list price. */
  function PendingRevenue(products: seq<Product>, quantities: map<string, ProductCard.Quantity>): real
    decreases |products|
  {
    if |products| == 0 then 0.0
    else
      var p := products[|products| - 1];
      PendingRevenue(products[..|products| - 1], quantities) + LineRevenue(quantities, p)
  }

  /** Reference definition: the per-unit (or mode-less) costs of the typed quantities; flat totals are not charged. */
  function PendingCost(products: seq<Product>, quantities: map<string, ProductCard.Quantity>): real
    decreases |products|
  {
    if |products| == 0 then 0.0
    else
      var p := products[|products| - 1];
      PendingCost(products[..|products| - 1], quantities) + LineCost(quantities, p)
  }

  /** One product's figures as the reduce computes them agree with the reference lines, and profit is their difference. */
  lemma LineFigures(quantities: map<string, ProductCard.Quantity>, p: Product)
    ensures var q := QtyOf(quantities, p.id) as real;
      && q * p.pricePerItem == LineRevenue(quantities, p)
      && q * PerUnitCost(p.rawCosts) == LineCost(quantities, p)
      && q * (p.pricePerItem - PerUnitCost(p.rawCosts)) == LineRevenue(quantities, p) - LineCost(quantities, p)
  {
    PerUnitCostIsModeSum(p.rawCosts);
    ScaleDifference(QtyOf(quantities, p.id) as real, p.pricePerItem, PerUnitCost(p.rawCosts));
  }

  /** Scaling distributes over a difference. */
  lemma ScaleDifference(q: real, a: real, b: real)
    ensures q * (a - b) == q * a - q * b
  {
  }

  /**
    `totals`: one reduce over the products accumulating revenue, cost and profit side
    by side. Profit, though accumulated on its own, is always revenue minus cost.
  */
  function PendingTotals(products: seq<Product>, quantities: map<string, ProductCard.Quantity>): (t: Totals)
    ensures t.revenue == PendingRevenue(products, quantities)
    ensures t.cost == PendingCost(products, quantities)
    ensures t.profit == t.revenue - t.cost
    decreases |products|
  {
    if |products| == 0 then Totals(0.0, 0.0, 0.0)
    else
      var acc := PendingTotals(products[..|products| - 1], quantities);
      var p := products[|products| - 1];
      var q := QtyOf(quantities, p.id) as real;
      var unitCost := PerUnitCost(p.rawCosts);
      LineFigures(quantities, p);
      Totals(acc.revenue + q * p.pricePerItem, acc.cost + q * unitCost, acc.profit + q * (p.pricePerItem - unitCost))
  }

  /** With no quantity typed for any listed product, every figure is zero. */
  lemma {:induction false} NothingTypedNothingPending(products: seq<Product>, quantities: map<string, ProductCard.Quantity>)
    requires forall i :: 0 <= i < |products| ==> QtyOf(quantities, products[i].id) == 0
    ensures PendingTotals(products, quantities) == Totals(0.0, 0.0, 0.0)
    decreases |products|
  {
    if |products| > 0 {
      NothingTypedNothingPending(products[..|products| - 1], quantities);
    }
  }

  /** A product without a typed quantity adds nothing to any figure. */
  lemma UntypedProductAddsNothing(products: seq<Product>, quantities: map<string, ProductCard.Quantity>, p: Product)
    requires QtyOf(quantities, p.id) == 0
    ensures PendingTotals(products + [p], quantities) == PendingTotals(products, quantities)
  {
    assert (products + [p])[..|products|] == products;
  }

  // ---------------------------------------------------------------- committing sales

  /** `Number(q) || 0 > 0`: the entry holds a positive count. */
  predicate Positive(e: (string, ProductCard.Quantity)) {
    e.1.Count? && e.1.n > 0
  }

  /** The sale an entry records, stamped with the time `at`. */
  function SaleOf(e: (string, ProductCard.Quantity), at: string): SalesEntry {
    SalesEntry(e.0, (if e.1.Count? then e.1.n else 0) as real, at)
  }

  /**
    The sales recorded for the kept entries when the `k`-th `addSalesEntry` call of the
    commit reads the clock as `clock(k)`.
  */
  function Stamped(kept: seq<(string, ProductCard.Quantity)>, clock: nat -> string): (r: seq<SalesEntry>)
    ensures |r| == |kept|
    decreases |kept|
  {
    if |kept| == 0 then []
    else Stamped(kept[..|kept| - 1], clock) + [SaleOf(kept[|kept| - 1], clock(|kept| - 1))]
  }

  /** The `k`-th stamped sale is the `k`-th kept entry at the `k`-th clock reading. */
  lemma {:induction false} StampedAt(kept: seq<(string, ProductCard.Quantity)>, clock: nat -> string, k: nat)
    requires k < |kept|
    ensures Stamped(kept, clock)[k] == SaleOf(kept[k], clock(k))
    decreases |kept|
  {
    if k < |kept| - 1 {
      StampedAt(kept[..|kept| - 1], clock, k);
    }
  }

  /**
    The last entry adds one sale, at the clock's next reading, to what the earlier
    entries record exactly when it is positive.
  */
  lemma StampedSnoc(base: seq<SalesEntry>, entries: seq<(string, ProductCard.Quantity)>, clock: nat -> string)
    requires |entries| > 0
    ensures var e := entries[|entries| - 1];
      var kept := Seqs.Filter(entries[..|entries| - 1], Positive);
      && |Seqs.Filter(entries, Positive)| == |kept| + (if Positive(e) then 1 else 0)
      && base + Stamped(Seqs.Filter(entries, Positive), clock)
         == (base + Stamped(kept, clock)) + (if Positive(e) then [SaleOf(e, clock(|kept|))] else [])
  {
    var pre, e := entries[..|entries| - 1], entries[|entries| - 1];
    var kept := Seqs.Filter(pre, Positive);
    assert entries == pre + [e];
    Seqs.FilterAppend(pre, [e], Positive);
    if Positive(e) {
      assert Seqs.Filter([e], Positive) == [e];
      assert (kept + [e])[..|kept|] == kept;
    } else {
      assert Seqs.Filter([e], Positive) == [];
      assert kept + [] == kept;
    }
  }

  /** Recording a sale appends exactly that sale. */
  lemma RecordAppends(st: AccountingState, sale: SalesEntry)
    ensures Store.AddSalesEntry(st, sale.productId, sale.quantitySold, sale.soldAt).sales == st.sales + [sale]
  {
    var r := Store.AddSalesEntry(st, sale.productId, sale.quantitySold, sale.soldAt);
    assert r.sales == r.sales[..|st.sales|] + [r.sales[|st.sales|]];
  }

  /** The state after committing, and the `added` counter. */
  datatype Commit = Commit(state: AccountingState, added: nat)

  /**
    `commitSales`: for each entry in order, a positive quantity becomes one sale of
    that product id and bumps the counter; every other entry is skipped. Each
    `addSalesEntry` call reads the clock afresh: the `k`-th recorded sale is stamped
    `clock(k)`.
  */
  function CommitSales(s: AccountingState, entries: seq<(string, ProductCard.Quantity)>, clock: nat -> string): (c: Commit)
    ensures c.state.products == s.products
    ensures c.state.sales == s.sales + Stamped(Seqs.Filter(entries, Positive), clock)
    ensures c.added == |Seqs.Filter(entries, Positive)|
    decreases |entries|
  {
    if |entries| == 0 then Commit(s, 0)
    else
      var e := entries[|entries| - 1];
      var c := CommitSales(s, entries[..|entries| - 1], clock);
      StampedSnoc(s.sales, entries, clock);
      if Positive(e) then
        var sale := SaleOf(e, clock(c.added));
        RecordAppends(c.state, sale);
        Commit(Store.AddSalesEntry(c.state, e.0, e.1.n as real, sale.soldAt), c.added + 1)
      else
        c
  }

  /**
    The commit only appends: the earlier sales stay in front, and the `k`-th new sale
    has a positive quantity and the `k`-th clock reading.
  */
  lemma CommitSalesSpec(s: AccountingState, entries: seq<(string, ProductCard.Quantity)>, clock: nat -> string)
    ensures var c := CommitSales(s, entries, clock);
      && |s.sales| <= |c.state.sales|
      && c.state.sales[..|s.sales|] == s.sales
      && var added := c.state.sales[|s.sales|..];
         && |added| == c.added
         && forall k :: 0 <= k < |added| ==> added[k].quantitySold > 0.0 && added[k].soldAt == clock(k)
  {
    var c := CommitSales(s, entries, clock);
    var kept := Seqs.Filter(entries, Positive);
    assert c.state.sales[|s.sales|..] == Stamped(kept, clock);
    assert c.state.sales[..|s.sales|] == s.sales;
    KeptSalesArePositive(kept, clock);
  }

  /** Stamping positive entries gives sales of positive quantity at the clock's readings. */
  lemma KeptSalesArePositive(kept: seq<(string, ProductCard.Quantity)>, clock: nat -> string)
    requires forall j :: 0 <= j < |kept| ==> Positive(kept[j])
    ensures forall k :: 0 <= k < |kept| ==> Stamped(kept, clock)[k].quantitySold > 0.0 && Stamped(kept, clock)[k].soldAt == clock(k)
  {
    forall k | 0 <= k < |kept|
      ensures Stamped(kept, clock)[k] == SaleOf(kept[k], clock(k))
    {
      StampedAt(kept, clock, k);
    }
  }

  /**
    Every positive entry is recorded: with `k` positive entries before it, it becomes
    the `k`-th new sale and carries the `k`-th clock reading.
  */
  lemma CommitRecordsEntry(s: AccountingState, entries: seq<(string, ProductCard.Quantity)>, clock: nat -> string, i: int)
    requires 0 <= i < |entries| && Positive(entries[i])
    ensures var c := CommitSales(s, entries, clock);
      var k := |Seqs.Filter(entries[..i], Positive)|;
      && k < c.added
      && c.state.sales[|s.sales| + k] == SaleOf(entries[i], clock(k))
  {
    var e := entries[i];
    var before, after := entries[..i], entries[i + 1..];
    assert entries == before + [e] + after;
    Seqs.FilterAppend(before + [e], after, Positive);
    Seqs.FilterAppend(before, [e], Positive);
    assert Seqs.Filter([e], Positive) == [e];
    var kept := Seqs.Filter(entries, Positive);
    var k := |Seqs.Filter(before, Positive)|;
    assert kept[k] == e;
    StampedAt(kept, clock, k);
  }

  /** Committing when no entry is positive changes nothing and counts nothing. */
  lemma CommitNothing(s: AccountingState, entries: seq<(string, ProductCard.Quantity)>, clock: nat -> string)
    requires forall i :: 0 <= i < |entries| ==> !Positive(entries[i])
    ensures CommitSales(s, entries, clock) == Commit(s, 0)
  {
    assert s.sales + [] == s.sales;
  }

  // ---------------------------------------------------------------- reordering

  /** A `splice` position: a negative index counts back from the end. */
  function SpliceIndex(n: int, i: int): int {
    if i < 0 then n + i else i
  }

  /** Where the element at position `i` after moving `f` to `t` came from. */
  function MoveSource(f: int, t: int, i: int): int {
    if i == t then f
    else if f < t && f <= i < t then i + 1
    else if t < f && t < i <= f then i - 1
    else i
  }

  /** Where the element at position `k` goes when moving `f` to `t`. */
  function MoveTarget(f: int, t: int, k: int): int {
    if k == f then t
    else if f < t && f < k <= t then k - 1
    else if t < f && t <= k < f then k + 1
    else k
  }

  /** The two position maps are inverse bijections of `0..n`. */
  lemma MoveMapsInverse(n: int, f: int, t: int)
    requires 0 <= f < n && 0 <= t < n
    ensures forall i :: 0 <= i < n ==> 0 <= MoveSource(f, t, i) < n && MoveTarget(f, t, MoveSource(f, t, i)) == i
    ensures forall k :: 0 <= k < n ==> 0 <= MoveTarget(f, t, k) < n && MoveSource(f, t, MoveTarget(f, t, k)) == k
  {
  }

  /**
    dnd-kit's `arrayMove`: removes the element at `from` and inserts it at `to`, both
    read as `splice` positions (so -1, what `findIndex` returns for a missing id,
    means the last element).
  */
  function ArrayMove<T>(xs: seq<T>, from: int, to: int): (r: seq<T>)
    requires |xs| > 0 && -1 <= from < |xs| && -1 <= to < |xs|
    ensures |r| == |xs|
    ensures forall i :: 0 <= i < |r| ==> r[i] == xs[MoveSource(SpliceIndex(|xs|, from), SpliceIndex(|xs|, to), i)]
  {
    var f := SpliceIndex(|xs|, from);
    var t := SpliceIndex(|xs|, to);
    var rest := xs[..f] + xs[f + 1..];
    RemovedAt(xs, f);
    InsertedAt(rest, t, xs[f]);
    rest[..t] + [xs[f]] + rest[t..]
  }

  /** `splice(f, 1)`: the elements after `f` shift down by one. */
  lemma RemovedAt<T>(xs: seq<T>, f: int)
    requires 0 <= f < |xs|
    ensures var rest := xs[..f] + xs[f + 1..];
      |rest| == |xs| - 1 && forall i :: 0 <= i < |rest| ==> rest[i] == if i < f then xs[i] else xs[i + 1]
  {
  }

  /** `splice(t, 0, x)`: `x` lands at `t` and the elements from `t` on shift up by one. */
  lemma InsertedAt<T>(rest: seq<T>, t: int, x: T)
    requires 0 <= t <= |rest|
    ensures var r := rest[..t] + [x] + rest[t..];
      |r| == |rest| + 1 && forall i :: 0 <= i < |r| ==> r[i] == if i < t then rest[i] else if i == t then x else rest[i - 1]
  {
  }

  /**
    A move only rearranges: the moved element lands at the target, no element is lost
    or invented, and every element keeps its number of copies.
  */
  lemma ArrayMoveKeepsElements<T>(xs: seq<T>, from: int, to: int)
    requires |xs| > 0 && -1 <= from < |xs| && -1 <= to < |xs|
    ensures ArrayMove(xs, from, to)[SpliceIndex(|xs|, to)] == xs[SpliceIndex(|xs|, from)]
    ensures forall i :: 0 <= i < |xs| ==> ArrayMove(xs, from, to)[i] in xs
    ensures forall k :: 0 <= k < |xs| ==> xs[k] in ArrayMove(xs, from, to)
    ensures multiset(ArrayMove(xs, from, to)) == multiset(xs)
  {
    ArrayMovePermutes(xs, from, to);
    var n := |xs|;
    var f, t := SpliceIndex(n, from), SpliceIndex(n, to);
    var r := ArrayMove(xs, from, to);
    MoveMapsInverse(n, f, t);
    assert forall k :: 0 <= k < n ==> r[MoveTarget(f, t, k)] == xs[k];
  }

  /** A move is a permutation: every element keeps its number of copies. */
  lemma ArrayMovePermutes<T>(xs: seq<T>, from: int, to: int)
    requires |xs| > 0 && -1 <= from < |xs| && -1 <= to < |xs|
    ensures multiset(ArrayMove(xs, from, to)) == multiset(xs)
  {
    var f, t := SpliceIndex(|xs|, from), SpliceIndex(|xs|, to);
    var x := xs[f];
    var rest := xs[..f] + xs[f + 1..];
    assert ArrayMove(xs, from, to) == rest[..t] + [x] + rest[t..];
    assert xs == xs[..f] + [x] + xs[f + 1..];
    assert rest == rest[..t] + rest[t..];
    calc {
      multiset(ArrayMove(xs, from, to));
      multiset(rest[..t] + [x] + rest[t..]);
      multiset(rest[..t]) + multiset([x]) + multiset(rest[t..]);
      multiset(rest) + multiset([x]);
      multiset(xs[..f]) + multiset(xs[f + 1..]) + multiset([x]);
      multiset(xs[..f] + [x] + xs[f + 1..]);
      multiset(xs);
    }
  }

  /** The position a move back reads from is where the forward move put the element. */
  lemma MoveBack(n: int, f: int, t: int, i: int)
    requires 0 <= f < n && 0 <= t < n && 0 <= i < n
    ensures 0 <= MoveSource(t, f, i) < n
    ensures MoveSource(f, t, MoveSource(t, f, i)) == i
  {
  }

  /** Moving an element back where it came from restores the order. */
  lemma ArrayMoveInverse<T>(xs: seq<T>, from: int, to: int)
    requires 0 <= from < |xs| && 0 <= to < |xs|
    ensures ArrayMove(ArrayMove(xs, from, to), to, from) == xs
  {
    var m := ArrayMove(xs, from, to);
    var r := ArrayMove(m, to, from);
    assert SpliceIndex(|xs|, from) == from && SpliceIndex(|xs|, to) == to;
    forall i | 0 <= i < |xs|
      ensures r[i] == xs[i]
    {
      MoveBack(|xs|, from, to, i);
      assert r[i] == m[MoveSource(to, from, i)];
    }
  }

  /**
    `handleDragEnd`: with a drop target other than the dragged card, the products are
    reordered by `arrayMove` and the state is replaced through `importState`; the
    sales are carried over unchanged.
  */
  function DragEnd(s: AccountingState, activeId: string, overId: Option<string>): (r: AccountingState)
    requires |s.products| > 0
    ensures r.sales == s.sales
    ensures overId.None? || overId.value == activeId ==> r == s
    ensures |r.products| == |s.products|
    ensures forall i :: 0 <= i < |r.products| ==> r.products[i] in s.products
    ensures forall i :: 0 <= i < |s.products| ==> s.products[i] in r.products
    ensures overId.Some? && FindIndex(s.products, activeId) >= 0 && FindIndex(s.products, overId.value) >= 0 ==>
      r.products[FindIndex(s.products, overId.value)] == s.products[FindIndex(s.products, activeId)]
    ensures multiset(r.products) == multiset(s.products)
    ensures overId.Some? && overId.value != activeId ==>
      r.products == ArrayMove(s.products, FindIndex(s.products, activeId), FindIndex(s.products, overId.value))
  {
    match overId
    case None => s
    case Some(over) =>
      if activeId == over then s
      else
        var n := |s.products|;
        var from := FindIndex(s.products, activeId);
        var to := FindIndex(s.products, over);
        var moved := ArrayMove(s.products, from, to);
        ArrayMoveKeepsElements(s.products, from, to);
        Store.ImportState(s, Some(s.(products := moved)))
  }

  /** A move keeps product ids unique, and each product's raw-cost ids unique. */
  lemma ArrayMoveKeepsUniqueIds(ps: seq<Product>, from: int, to: int)
    requires |ps| > 0 && -1 <= from < |ps| && -1 <= to < |ps|
    requires WellFormed(AccountingState(ps, []))
    ensures WellFormed(AccountingState(ArrayMove(ps, from, to), []))
  {
    var n := |ps|;
    var f, t := SpliceIndex(n, from), SpliceIndex(n, to);
    var r := ArrayMove(ps, from, to);
    MoveMapsInverse(n, f, t);
    forall i, j | 0 <= i < j < n
      ensures r[i].id != r[j].id
    {
      var a, b := MoveSource(f, t, i), MoveSource(f, t, j);
      assert a != b;
      if a < b {
        assert ps[a].id != ps[b].id;
      } else {
        assert ps[b].id != ps[a].id;
      }
    }
    forall i | 0 <= i < n
      ensures UniqueCostIds(r[i].rawCosts)
    {
      assert r[i] == ps[MoveSource(f, t, i)];
    }
  }

  /** Reordering keeps the identity invariant: ids stay unique. */
  lemma DragEndPreservesWellFormed(s: AccountingState, activeId: string, overId: Option<string>)
    requires |s.products| > 0
    requires WellFormed(s)
    ensures WellFormed(DragEnd(s, activeId, overId))
  {
    if overId.Some? && overId.value != activeId {
      var from := FindIndex(s.products, activeId);
      var to := FindIndex(s.products, overId.value);
      assert DragEnd(s, activeId, overId).products == ArrayMove(s.products, from, to);
      ArrayMoveKeepsUniqueIds(s.products, from, to);
    }
  }

  // ---------------------------------------------------------------- card editing

  /** `isEditing`: every card in "Edit all", otherwise the cards flagged true. */
  predicate IsEditing(editAll: bool, editing: map<string, bool>, id: string) {
    editAll || (id in editing && editing[id])
  }

  /** The store and the per-card edit flags after a save. */
  datatype Saved = Saved(state: AccountingState, editing: map<string, bool>)

  /** The image part of a patch is applied when either of its fields is present. */
  predicate TouchesImage(patch: ProductCard.SavePatch) {
    patch.imageUrl.Some? || patch.imagePublicId.Some?
  }

  /**
    Reference definition: the product a save leaves, in one step. The title and the raw
    costs are taken when present; when the image part is touched, BOTH image fields take
    the patch's values, an absent one clearing the field.
  */
  function SavedProduct(p: Product, patch: ProductCard.SavePatch): Product {
    p.(title := patch.title.GetOr(p.title),
       imageUrl := if TouchesImage(patch) then patch.imageUrl else p.imageUrl,
       imagePublicId := if TouchesImage(patch) then patch.imagePublicId else p.imagePublicId,
       rawCosts := patch.rawCosts.GetOr(p.rawCosts))
  }

  /**
    The card's `onSave` handler: up to three `updateProduct` calls (title; both image
    fields; raw costs), then the card's edit flag is set to false.
  */
  function OnSave(s: AccountingState, editing: map<string, bool>, productId: string, patch: ProductCard.SavePatch): (r: Saved)
    ensures r.state.sales == s.sales
    ensures |r.state.products| == |s.products|
    ensures forall i :: 0 <= i < |s.products| && s.products[i].id != productId ==> r.state.products[i] == s.products[i]
    ensures forall i :: 0 <= i < |s.products| && s.products[i].id == productId ==>
      r.state.products[i] == SavedProduct(s.products[i], patch)
    ensures r.editing.Keys == editing.Keys + {productId}
    ensures !r.editing[productId]
    ensures forall id :: id in editing && id != productId ==> r.editing[id] == editing[id]
  {
    var none := Store.NoProductChange;
    var s1 := if patch.title.Some? then Store.UpdateProduct(s, productId, none.(title := patch.title)) else s;
    var s2 := if TouchesImage(patch)
      then Store.UpdateProduct(s1, productId, none.(imageUrl := Some(patch.imageUrl), imagePublicId := Some(patch.imagePublicId)))
      else s1;
    var s3 := if patch.rawCosts.Some? then Store.UpdateProduct(s2, productId, none.(rawCosts := patch.rawCosts)) else s2;
    Saved(s3, editing[productId := false])
  }

  /** After any save the card is out of edit mode, unless "Edit all" is on. */
  lemma SaveClosesCard(s: AccountingState, editing: map<string, bool>, productId: string, patch: ProductCard.SavePatch, editAll: bool)
    ensures IsEditing(editAll, OnSave(s, editing, productId, patch).editing, productId) <==> editAll
  {
  }

  /**
    A click outside the editor re-saves what the card shows. Since the card never
    passes a public id, a product with an image loses its public id; one without an
    image is left as it was.
  */
  lemma OutsideClickClearsPublicId(s: AccountingState, editing: map<string, bool>, i: int)
    requires 0 <= i < |s.products|
    ensures var p := s.products[i];
      var r := OnSave(s, editing, p.id, ProductCard.OutsideClickPatch(p.title, p.imageUrl, p.rawCosts));
      r.state.products[i] == if p.imageUrl.Some? then p.(imagePublicId := None) else p
  {
  }

  /**
    A keystroke in the title field renames the product and touches nothing else of it;
    the other products and the sales are untouched, and only the card's flag changes.
  */
  lemma TitleKeystrokeRenames(s: AccountingState, editing: map<string, bool>, i: int, text: string)
    requires 0 <= i < |s.products|
    ensures var p := s.products[i];
      var r := OnSave(s, editing, p.id, ProductCard.TitlePatch(text));
      && r.state.products[i] == p.(title := text)
      && r.state.sales == s.sales
      && (forall j :: 0 <= j < |s.products| && s.products[j].id != p.id ==> r.state.products[j] == s.products[j])
      && r.editing == editing[p.id := false]
  {
  }

  /** An upload on the card stores the new URL and clears the public id. */
  lemma CardUploadClearsPublicId(s: AccountingState, editing: map<string, bool>, i: int, url: string)
    requires 0 <= i < |s.products|
    ensures var p := s.products[i];
      OnSave(s, editing, p.id, ProductCard.UploadPatch(url)).state.products[i]
        == p.(imageUrl := Some(url), imagePublicId := None)
  {
  }
}
