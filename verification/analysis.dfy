/**
  The Analysis page's computations: the date-range filter, the per-date revenue and
  profit series with its sorted labels, the cost breakdown by label, the sales grouped
  by product title, and the choice among them by graph type. Parsing an ISO timestamp
  is a parameter: `Some(instant)` for a valid date, `None` for an Invalid Date.
*/
module Analysis {
  import opened Wrappers
  import opened Accounting
  import Seqs
  import LexOrder
  import Grouping

  datatype GraphType = Revenue | Profit | CostBreakdown | SalesByProduct | RevenueVsProfit

  /** The selected range, as instants; both ends are inclusive. */
  datatype DateRange = DateRange(start: int, end: int)

  // ---------------------------------------------------------------- date filter

  /**
    `!isBefore(date, start) && !isAfter(date, end)` for `date = parseISO(soldAt)`.
    An Invalid Date compares false both ways, so an unparsable timestamp passes.
  */
  predicate InRange(range: DateRange, parse: string -> Option<int>, e: SalesEntry) {
    match parse(e.soldAt)
    case None => true
    case Some(t) => range.start <= t <= range.end
  }

  function InRangeOf(range: DateRange, parse: string -> Option<int>): SalesEntry -> bool {
    e => InRange(range, parse, e)
  }

  /** `filteredSales`: the sales inside the range, in their recorded order, each copy kept. */
  function FilteredSales(sales: seq<SalesEntry>, range: DateRange, parse: string -> Option<int>): (r: seq<SalesEntry>)
    ensures forall k :: 0 <= k < |r| ==> r[k] in sales && InRange(range, parse, r[k])
    ensures forall k :: 0 <= k < |sales| && InRange(range, parse, sales[k]) ==> sales[k] in r
    ensures forall k :: 0 <= k < |sales| && parse(sales[k].soldAt).Some? ==>
      (sales[k] in r <==> range.start <= parse(sales[k].soldAt).value <= range.end)
    ensures forall e :: multiset(r)[e] == if InRange(range, parse, e) then multiset(sales)[e] else 0
  {
    Seqs.FilterCounts(sales, InRangeOf(range, parse));
    Seqs.Filter(sales, InRangeOf(range, parse))
  }

  /** The sales in range keep their recorded order. */
  lemma FilteredSalesKeepOrder(sales: seq<SalesEntry>, range: DateRange, parse: string -> Option<int>, i: int, j: int) returns (a: int, b: int)
    requires 0 <= i < j < |FilteredSales(sales, range, parse)|
    ensures 0 <= a < b < |sales|
    ensures sales[a] == FilteredSales(sales, range, parse)[i] && sales[b] == FilteredSales(sales, range, parse)[j]
  {
    a, b := Seqs.FilterKeepsOrder(sales, InRangeOf(range, parse), i, j);
  }

  /** Widening the range never drops a sale. */
  lemma FilteredSalesMonotone(sales: seq<SalesEntry>, narrow: DateRange, wide: DateRange, parse: string -> Option<int>)
    requires wide.start <= narrow.start && narrow.end <= wide.end
    ensures forall k :: 0 <= k < |sales| && sales[k] in FilteredSales(sales, narrow, parse) ==>
      sales[k] in FilteredSales(sales, wide, parse)
  {
  }

  // ---------------------------------------------------------------- per-date series

  /** `soldAt.split("T")[0]`: the text before the first `T` (all of it when there is none). */
  function DateKey(soldAt: string): (k: string)
    ensures |k| <= |soldAt| && k == soldAt[..|k|]
    ensures forall i :: 0 <= i < |k| ==> k[i] != 'T'
    ensures |k| < |soldAt| ==> soldAt[|k|] == 'T'
    decreases |soldAt|
  {
    if |soldAt| == 0 || soldAt[0] == 'T' then "" else [soldAt[0]] + DateKey(soldAt[1..])
  }

  /** For an ISO timestamp `date + "T" + time`, the key is the calendar date. */
  lemma DateKeyOfIso(date: string, time: string)
    requires forall i :: 0 <= i < |date| ==> date[i] != 'T'
    ensures DateKey(date + "T" + time) == date
  {
    var s := date + "T" + time;
    assert s[|date|] == 'T';
    assert forall i :: 0 <= i < |date| ==> s[i] == date[i];
    assert DateKey(s) == s[..|date|] == date;
  }

  /** A date's running totals. */
  datatype DayTotals = DayTotals(revenue: real, profit: real)

  const NoDay: DayTotals := DayTotals(0.0, 0.0)

  function AddDay(a: DayTotals, b: DayTotals): DayTotals {
    DayTotals(a.revenue + b.revenue, a.profit + b.profit)
  }

  /**
    What one sale adds to the series: nothing for an empty timestamp or a missing
    product; otherwise quantity times price as revenue and quantity times price minus
    ALL raw costs (whatever their mode) as profit, under the sale's date.
  */
  function DayEntry(products: seq<Product>, e: SalesEntry): Option<(string, DayTotals)> {
    if e.soldAt == "" then None
    else match FindProduct(products, e.productId)
      case None => None
      case Some(p) =>
        var unitCost := SumAmounts(p.rawCosts);
        Some((DateKey(e.soldAt), DayTotals(e.quantitySold * p.pricePerItem, e.quantitySold * (p.pricePerItem - unitCost))))
  }

  function DayEntries(products: seq<Product>, sales: seq<SalesEntry>): (r: seq<Option<(string, DayTotals)>>)
    ensures |r| == |sales|
    ensures forall k :: 0 <= k < |sales| ==> r[k] == DayEntry(products, sales[k])
  {
    seq(|sales|, k requires 0 <= k < |sales| => DayEntry(products, sales[k]))
  }

  /** `byDate`: the totals per date key. */
  function ByDate(products: seq<Product>, sales: seq<SalesEntry>): map<string, DayTotals> {
    Grouping.Tally(DayEntries(products, sales), NoDay, AddDay)
  }

  /** A sale counts toward date `d`: it has a timestamp, its date is `d`, and its product exists. */
  predicate CountsOn(products: seq<Product>, e: SalesEntry, d: string) {
    e.soldAt != "" && DateKey(e.soldAt) == d && FindProduct(products, e.productId).Some?
  }

  /** Reference definition: the revenue of the sales that count toward `d`. */
  function DayRevenue(products: seq<Product>, sales: seq<SalesEntry>, d: string): real
    decreases |sales|
  {
    if |sales| == 0 then 0.0
    else
      var e := sales[|sales| - 1];
      DayRevenue(products, sales[..|sales| - 1], d)
        + if CountsOn(products, e, d) then e.quantitySold * FindProduct(products, e.productId).value.pricePerItem else 0.0
  }

  /** Reference definition: the profit of the sales that count toward `d`, against all raw costs. */
  function DayProfit(products: seq<Product>, sales: seq<SalesEntry>, d: string): real
    decreases |sales|
  {
    if |sales| == 0 then 0.0
    else
      var e := sales[|sales| - 1];
      DayProfit(products, sales[..|sales| - 1], d)
        + if CountsOn(products, e, d) then
            var p := FindProduct(products, e.productId).value;
            e.quantitySold * (p.pricePerItem - SumAmounts(p.rawCosts))
          else 0.0
  }

  lemma {:induction false} DayBucketIsDaySums(products: seq<Product>, sales: seq<SalesEntry>, d: string)
    ensures Grouping.BucketTotal(DayEntries(products, sales), d, NoDay, AddDay)
         == DayTotals(DayRevenue(products, sales, d), DayProfit(products, sales, d))
    decreases |sales|
  {
    if |sales| > 0 {
      var pre := sales[..|sales| - 1];
      assert DayEntries(products, sales)[..|sales| - 1] == DayEntries(products, pre);
      DayBucketIsDaySums(products, pre, d);
    }
  }

  /**
    The series has a point exactly for the dates some sale counts toward, and each
    point's revenue and profit are the sums over exactly those sales.
  */
  lemma ByDateSpec(products: seq<Product>, sales: seq<SalesEntry>, d: string)
    ensures d in ByDate(products, sales) <==> exists k :: 0 <= k < |sales| && CountsOn(products, sales[k], d)
    ensures d in ByDate(products, sales) ==>
      ByDate(products, sales)[d] == DayTotals(DayRevenue(products, sales, d), DayProfit(products, sales, d))
  {
    var entries := DayEntries(products, sales);
    Grouping.TallySpec(entries, NoDay, AddDay, d);
    DayBucketIsDaySums(products, sales, d);
    assert forall k :: 0 <= k < |sales| ==> (Grouping.Hits(entries[k], d) <==> CountsOn(products, sales[k], d));
  }

  // ---------------------------------------------------------------- cost breakdown

  function AddReal(a: real, b: real): real {
    a + b
  }

  /** Every raw cost of every product, products in order and each product's costs in order. */
  function AllCosts(products: seq<Product>): seq<RawCost>
    decreases |products|
  {
    if |products| == 0 then [] else AllCosts(products[..|products| - 1]) + products[|products| - 1].rawCosts
  }

  function CostEntries(costs: seq<RawCost>): (r: seq<Option<(string, real)>>)
    ensures |r| == |costs|
    ensures forall j :: 0 <= j < |costs| ==> r[j] == Some((costs[j].name, costs[j].amount))
  {
    seq(|costs|, j requires 0 <= j < |costs| => Some((costs[j].name, costs[j].amount)))
  }

  /** `byCost`: raw-cost amounts summed by exact label, over all products and regardless of dates. */
  function CostTotals(products: seq<Product>): map<string, real> {
    Grouping.Tally(CostEntries(AllCosts(products)), 0.0, AddReal)
  }

  /** Reference definition: the amounts of one product's costs labelled `l`. */
  function CostsLabelled(costs: seq<RawCost>, l: string): real
    decreases |costs|
  {
    if |costs| == 0 then 0.0
    else CostsLabelled(costs[..|costs| - 1], l) + if costs[|costs| - 1].name == l then costs[|costs| - 1].amount else 0.0
  }

  /** Reference definition: the amounts of all products' costs labelled `l`. */
  function LabelTotal(products: seq<Product>, l: string): real
    decreases |products|
  {
    if |products| == 0 then 0.0
    else LabelTotal(products[..|products| - 1], l) + CostsLabelled(products[|products| - 1].rawCosts, l)
  }

  lemma {:induction false} CostBucketAppend(xs: seq<RawCost>, ys: seq<RawCost>, l: string)
    ensures Grouping.BucketTotal(CostEntries(xs + ys), l, 0.0, AddReal)
         == Grouping.BucketTotal(CostEntries(xs), l, 0.0, AddReal) + CostsLabelled(ys, l)
    decreases |ys|
  {
    if |ys| == 0 {
      assert xs + ys == xs;
    } else {
      var ys' := ys[..|ys| - 1];
      assert (xs + ys)[..|xs + ys| - 1] == xs + ys';
      assert CostEntries(xs + ys)[..|xs + ys| - 1] == CostEntries(xs + ys');
      CostBucketAppend(xs, ys', l);
    }
  }

  lemma {:induction false} CostBucketIsLabelTotal(products: seq<Product>, l: string)
    ensures Grouping.BucketTotal(CostEntries(AllCosts(products)), l, 0.0, AddReal) == LabelTotal(products, l)
    decreases |products|
  {
    if |products| > 0 {
      var pre := products[..|products| - 1];
      CostBucketIsLabelTotal(pre, l);
      CostBucketAppend(AllCosts(pre), products[|products| - 1].rawCosts, l);
    }
  }

  /** Some product has a cost labelled `l`. */
  predicate HasLabel(products: seq<Product>, l: string) {
    exists i, j :: 0 <= i < |products| && 0 <= j < |products[i].rawCosts| && products[i].rawCosts[j].name == l
  }

  lemma {:induction false} AllCostsLabels(products: seq<Product>, l: string)
    ensures (exists j :: 0 <= j < |AllCosts(products)| && AllCosts(products)[j].name == l) <==> HasLabel(products, l)
    decreases |products|
  {
    if |products| > 0 {
      var pre := products[..|products| - 1];
      var last := products[|products| - 1].rawCosts;
      AllCostsLabels(pre, l);
      var all := AllCosts(products);
      assert all == AllCosts(pre) + last;
      if exists j :: 0 <= j < |all| && all[j].name == l {
        var j :| 0 <= j < |all| && all[j].name == l;
        if j < |AllCosts(pre)| {
          assert AllCosts(pre)[j].name == l;
          var i', j' :| 0 <= i' < |pre| && 0 <= j' < |pre[i'].rawCosts| && pre[i'].rawCosts[j'].name == l;
          assert products[i'] == pre[i'];
        } else {
          assert last[j - |AllCosts(pre)|].name == l;
          assert products[|products| - 1] == products[|products| - 1];
        }
      }
      if HasLabel(products, l) {
        var i, j :| 0 <= i < |products| && 0 <= j < |products[i].rawCosts| && products[i].rawCosts[j].name == l;
        if i < |pre| {
          assert pre[i] == products[i];
          assert HasLabel(pre, l);
          var j' :| 0 <= j' < |AllCosts(pre)| && AllCosts(pre)[j'].name == l;
          assert all[j'] == AllCosts(pre)[j'];
        } else {
          assert all[|AllCosts(pre)| + j] == last[j];
        }
      }
    }
  }

  /**
    The breakdown has a bucket exactly for the labels some cost carries (exact string
    match), holding the sum of all amounts with that label across all products.
  */
  lemma CostTotalsSpec(products: seq<Product>, l: string)
    ensures l in CostTotals(products) <==> HasLabel(products, l)
    ensures l in CostTotals(products) ==> CostTotals(products)[l] == LabelTotal(products, l)
  {
    var all := AllCosts(products);
    var entries := CostEntries(all);
    Grouping.TallySpec(entries, 0.0, AddReal, l);
    CostBucketIsLabelTotal(products, l);
    AllCostsLabels(products, l);
    assert forall j :: 0 <= j < |all| ==> (Grouping.Hits(entries[j], l) <==> all[j].name == l);
  }

  // ---------------------------------------------------------------- sales by product

  /** What one sale adds to the by-product view: its quantity under its product's title, nothing for a missing product. */
  function TitleEntry(products: seq<Product>, e: SalesEntry): Option<(string, real)> {
    match FindProduct(products, e.productId)
    case None => None
    case Some(p) => Some((p.title, e.quantitySold))
  }

  function TitleEntries(products: seq<Product>, sales: seq<SalesEntry>): (r: seq<Option<(string, real)>>)
    ensures |r| == |sales|
    ensures forall k :: 0 <= k < |sales| ==> r[k] == TitleEntry(products, sales[k])
  {
    seq(|sales|, k requires 0 <= k < |sales| => TitleEntry(products, sales[k]))
  }

  /** `byProduct`: quantities summed by product title, so products sharing a title share a bucket. */
  function SalesByTitle(products: seq<Product>, sales: seq<SalesEntry>): map<string, real> {
    Grouping.Tally(TitleEntries(products, sales), 0.0, AddReal)
  }

  /** A sale's product exists and has title `t`. */
  predicate SoldUnder(products: seq<Product>, e: SalesEntry, t: string) {
    FindProduct(products, e.productId).Some? && FindProduct(products, e.productId).value.title == t
  }

  /** Reference definition: the quantity sold of the products titled `t`. */
  function TitleQuantity(products: seq<Product>, sales: seq<SalesEntry>, t: string): real
    decreases |sales|
  {
    if |sales| == 0 then 0.0
    else
      var e := sales[|sales| - 1];
      TitleQuantity(products, sales[..|sales| - 1], t) + if SoldUnder(products, e, t) then e.quantitySold else 0.0
  }

  lemma {:induction false} TitleBucketIsQuantity(products: seq<Product>, sales: seq<SalesEntry>, t: string)
    ensures Grouping.BucketTotal(TitleEntries(products, sales), t, 0.0, AddReal) == TitleQuantity(products, sales, t)
    decreases |sales|
  {
    if |sales| > 0 {
      var pre := sales[..|sales| - 1];
      assert TitleEntries(products, sales)[..|sales| - 1] == TitleEntries(products, pre);
      TitleBucketIsQuantity(products, pre, t);
    }
  }

  /** The view has a bucket exactly for the titles of sold, existing products, holding their total quantity. */
  lemma SalesByTitleSpec(products: seq<Product>, sales: seq<SalesEntry>, t: string)
    ensures t in SalesByTitle(products, sales) <==> exists k :: 0 <= k < |sales| && SoldUnder(products, sales[k], t)
    ensures t in SalesByTitle(products, sales) ==> SalesByTitle(products, sales)[t] == TitleQuantity(products, sales, t)
  {
    var entries := TitleEntries(products, sales);
    Grouping.TallySpec(entries, 0.0, AddReal, t);
    TitleBucketIsQuantity(products, sales, t);
    assert forall k :: 0 <= k < |sales| ==> (Grouping.Hits(entries[k], t) <==> SoldUnder(products, sales[k], t));
  }

  /** A sale whose product no longer exists changes neither the series nor the by-product view. */
  lemma DanglingSaleIgnored(products: seq<Product>, sales: seq<SalesEntry>, e: SalesEntry)
    requires FindProduct(products, e.productId).None?
    ensures ByDate(products, sales + [e]) == ByDate(products, sales)
    ensures SalesByTitle(products, sales + [e]) == SalesByTitle(products, sales)
  {
    EntriesAppend(products, sales, e);
    Grouping.TallySkips(DayEntries(products, sales), NoDay, AddDay);
    Grouping.TallySkips(TitleEntries(products, sales), 0.0, AddReal);
  }

  /** A sale appended to the log contributes its own entry after the others. */
  lemma EntriesAppend(products: seq<Product>, sales: seq<SalesEntry>, e: SalesEntry)
    ensures DayEntries(products, sales + [e]) == DayEntries(products, sales) + [DayEntry(products, e)]
    ensures TitleEntries(products, sales + [e]) == TitleEntries(products, sales) + [TitleEntry(products, e)]
  {
  }

  /** A sale without a timestamp changes nothing in the series. */
  lemma UntimedSaleIgnored(products: seq<Product>, sales: seq<SalesEntry>, e: SalesEntry)
    requires e.soldAt == ""
    ensures ByDate(products, sales + [e]) == ByDate(products, sales)
  {
    EntriesAppend(products, sales, e);
    Grouping.TallySkips(DayEntries(products, sales), NoDay, AddDay);
  }

  // ---------------------------------------------------------------- chart data

  /** One plotted series: its legend and one value per label. */
  datatype Dataset = Dataset(legend: string, data: seq<real>)

  /** A time-series chart, or a chart of named buckets (whose display order is not modelled). */
  datatype Chart =
    | Series(labels: seq<string>, datasets: seq<Dataset>)
    | Buckets(legend: string, totals: map<string, real>)

  predicate ShowsRevenue(graph: GraphType) {
    graph == Revenue || graph == RevenueVsProfit
  }

  predicate ShowsProfit(graph: GraphType) {
    graph == Profit || graph == RevenueVsProfit
  }

  /** `labels.map(d => byDate[d].revenue)`. */
  function Revenues(byDate: map<string, DayTotals>, labels: seq<string>): (r: seq<real>)
    requires forall i :: 0 <= i < |labels| ==> labels[i] in byDate
    ensures |r| == |labels|
    ensures forall i :: 0 <= i < |labels| ==> r[i] == byDate[labels[i]].revenue
  {
    seq(|labels|, i requires 0 <= i < |labels| => byDate[labels[i]].revenue)
  }

  /** `labels.map(d => byDate[d].profit)`. */
  function Profits(byDate: map<string, DayTotals>, labels: seq<string>): (r: seq<real>)
    requires forall i :: 0 <= i < |labels| ==> labels[i] in byDate
    ensures |r| == |labels|
    ensures forall i :: 0 <= i < |labels| ==> r[i] == byDate[labels[i]].profit
  {
    seq(|labels|, i requires 0 <= i < |labels| => byDate[labels[i]].profit)
  }

  /** The time-series chart of a `byDate` table: sorted labels, then the datasets the graph type shows. */
  function SeriesOf(byDate: map<string, DayTotals>, graph: GraphType): (c: Chart)
    ensures c.Series?
    ensures LexOrder.StrictlySorted(c.labels)
    ensures forall i :: 0 <= i < |c.labels| ==> c.labels[i] in byDate
    ensures forall d :: d in byDate ==> d in c.labels
    ensures |c.datasets| == (if ShowsRevenue(graph) then 1 else 0) + (if ShowsProfit(graph) then 1 else 0)
    ensures forall j :: 0 <= j < |c.datasets| ==> |c.datasets[j].data| == |c.labels|
    ensures ShowsRevenue(graph) ==> c.datasets[0].legend == "Revenue"
    ensures ShowsRevenue(graph) ==> forall i :: 0 <= i < |c.labels| ==> c.datasets[0].data[i] == byDate[c.labels[i]].revenue
    ensures ShowsProfit(graph) ==> c.datasets[|c.datasets| - 1].legend == "Profit"
    ensures ShowsProfit(graph) ==> forall i :: 0 <= i < |c.labels| ==> c.datasets[|c.datasets| - 1].data[i] == byDate[c.labels[i]].profit
  {
    var labels := LexOrder.SortedKeys(byDate.Keys);
    var revenue := Dataset("Revenue", Revenues(byDate, labels));
    var profit := Dataset("Profit", Profits(byDate, labels));
    match graph
    case Revenue => Series(labels, [revenue])
    case Profit => Series(labels, [profit])
    case RevenueVsProfit => Series(labels, [revenue, profit])
    case _ => Series(labels, [])
  }

  /** `chartData`: the report the graph type selects; the series and the by-product view see only in-range sales. */
  function ChartData(s: AccountingState, graph: GraphType, range: DateRange, parse: string -> Option<int>): (c: Chart)
    ensures c.Series? <==> graph != CostBreakdown && graph != SalesByProduct
    ensures graph == CostBreakdown ==> c == Buckets("Cost Breakdown", CostTotals(s.products))
    ensures graph == SalesByProduct ==>
      c == Buckets("Sales by Product", SalesByTitle(s.products, FilteredSales(s.sales, range, parse)))
    ensures c.Series? ==> c == SeriesOf(ByDate(s.products, FilteredSales(s.sales, range, parse)), graph)
  {
    var filtered := FilteredSales(s.sales, range, parse);
    match graph
    case CostBreakdown => Buckets("Cost Breakdown", CostTotals(s.products))
    case SalesByProduct => Buckets("Sales by Product", SalesByTitle(s.products, filtered))
    case _ => SeriesOf(ByDate(s.products, filtered), graph)
  }

  /**
    Each point of a plotted series is the reference sum for its date: the revenue
    dataset holds the day's revenue, the profit dataset the day's profit, and every
    label is a date some in-range sale counts toward.
  */
  lemma ChartSeriesValues(s: AccountingState, graph: GraphType, range: DateRange, parse: string -> Option<int>)
    requires graph != CostBreakdown && graph != SalesByProduct
    ensures var c := ChartData(s, graph, range, parse);
      var filtered := FilteredSales(s.sales, range, parse);
      forall i :: 0 <= i < |c.labels| ==>
        && (exists k :: 0 <= k < |filtered| && CountsOn(s.products, filtered[k], c.labels[i]))
        && (ShowsRevenue(graph) ==> c.datasets[0].data[i] == DayRevenue(s.products, filtered, c.labels[i]))
        && (ShowsProfit(graph) ==> c.datasets[|c.datasets| - 1].data[i] == DayProfit(s.products, filtered, c.labels[i]))
  {
    var c := ChartData(s, graph, range, parse);
    var filtered := FilteredSales(s.sales, range, parse);
    forall i | 0 <= i < |c.labels|
      ensures (exists k :: 0 <= k < |filtered| && CountsOn(s.products, filtered[k], c.labels[i]))
      ensures ShowsRevenue(graph) ==> c.datasets[0].data[i] == DayRevenue(s.products, filtered, c.labels[i])
      ensures ShowsProfit(graph) ==> c.datasets[|c.datasets| - 1].data[i] == DayProfit(s.products, filtered, c.labels[i])
    {
      ByDateSpec(s.products, filtered, c.labels[i]);
    }
  }
}
