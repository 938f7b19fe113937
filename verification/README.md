# Accounting website — a Dafny model of its core

The application keeps a small bookkeeping state in the browser: a list of products
(title, price per item, optional image URL and image-host public id, and an ordered
list of raw costs, each per unit or a flat total) and a list of sales entries (a
product id, a quantity and an ISO timestamp text). A store hook turns every user
action into a new state; three pages read and drive it (Add for typing quantities and
committing them as sales, Edit for managing products, Analysis for charts), and a
server route signs image uploads.

This project models that core as pure Dafny functions over immutable datatypes and
proves what the code promises about it.

| file | module | what it models |
|---|---|---|
| `accounting.dfy` | `Accounting` | the domain types, effective mode of a cost, cost sums, lookup by id, the id-uniqueness invariant |
| `store.dfy` | `Store` | the load fallback, every store action as `AccountingState -> AccountingState`, the unit-cost and unit-profit selectors |
| `store_laws.dfy` | `StoreLaws` | frame, inverse and idempotence laws of the actions; uniqueness of ids over any run of admissible actions |
| `analysis.dfy` | `Analysis` | the date filter, the per-date revenue/profit series with sorted labels, the cost breakdown, sales by product title, the chart selection |
| `add_page.dfy` | `AddPage` | the pending totals, committing sales, drag-and-drop reordering (`arrayMove`), the edit flags and the save dispatch |
| `product_card.dfy` | `ProductCard` | the quantity sanitiser, the save patches, the positional raw-cost edits, the card's upload failure text |
| `edit_page.dfy` | `EditPage` | the New Product and Add Raw Cost forms, the per-product controls, the displayed mode, the upload failure message |
| `cloudinary_sign.dfy` | `CloudinarySign` | the parameters signed for an upload, the sorted `k=v&...` string, the response for each outcome |
| `grouping.dfy`, `lexorder.dfy`, `text.dfy`, `seqs.dfy`, `wrappers.dfy`, `errors.dfy` | helpers | the group-by fold, JavaScript's default string order, `trim` and digit handling, sequence filters and updates, `Option`/`Result`, caught values |

Modelling choices:

- Amounts, prices and quantities are `real`: exact arithmetic stands in for JavaScript numbers.
- A raw cost's mode is `Option<Mode>`; `addProduct` creates costs without a mode, and
  every reader treats a missing mode as per-unit (`Accounting.EffectiveMode`).
- Fresh ids (`nanoid`) and the current time are parameters. Only the lemmas about the
  id invariant assume the ids are fresh; the actions themselves accept any id, as the
  code does. A commit on the Add page calls `addSalesEntry` once per positive entry and
  each call reads the clock, so the commit takes a clock `nat -> string` and its `k`-th
  recorded sale is stamped `clock(k)`; two sales of one commit may differ in time and
  even in date.
- JSON parsing is a parameter returning `Option<AccountingState>`; `None` is a parse
  failure.
- `parseISO` is a parameter returning `Option<int>` (an instant). `None` is an Invalid
  Date. Since `isBefore` and `isAfter` are both false for an Invalid Date, a sale
  whose timestamp does not parse passes the date filter; the model keeps that.
- An optional field in a `Partial<Product>` patch is `Option<Option<T>>`: a present key
  holding `undefined` clears the field, which is what happens when the Add page saves
  the image URL together with an absent public id.
- `Object.keys(...).sort()` is `LexOrder.SortedKeys`: strings ordered character by
  character with a proper prefix first.
- The Edit page's Add Raw Cost caller stores every new cost as per-unit; the mode chosen
  in the form is discarded, and `EditPage.SubmittedCostRaisesUnitCost` states the
  consequence.
- Saving from a product card on the Add page (outside click or image upload) never
  carries a public id, so it clears the stored one whenever an image URL is saved;
  `AddPage.OutsideClickClearsPublicId` and `AddPage.CardUploadClearsPublicId` state it.

## Model

| member | source | states |
|---|---|---|
| `Accounting.PerUnitCostIsModeSum` | src/store/use-acccounting.tsx:143-145 | filtering the per-unit or mode-less costs and then summing gives exactly the one-pass sum of the costs whose effective mode is per-unit |
| `Accounting.SumAmountsSplitsByMode` | src/store/use-acccounting.tsx:150 | the sum of all amounts is the per-unit sum plus the flat-total sum |
| `Accounting.ModelessHasNoTotal` | src/store/use-acccounting.tsx:53-57 | costs without a mode contribute nothing as flat totals and everything as per-unit costs |
| `Accounting.FindIndex` | src/app/add/page.tsx:61-62 | -1 exactly when no product has the id; otherwise the first position holding it |
| `Accounting.FindProduct` | src/store/use-acccounting.tsx:139 | no result exactly when no product has the id; a result is the first listed product with that id, so a later duplicate is never returned |
| `Accounting.FindUnique` | src/store/use-acccounting.tsx:139 | with unique ids, looking up a product's id finds that very product at its position |
| `Store.LoadState` | src/store/use-acccounting.tsx:15-24 | the empty state without a window, without stored text or on a parse failure; otherwise the parsed state |
| `StoreLaws.LoadStateWellFormed` | src/store/use-acccounting.tsx:15-24 | the empty fallback is well formed, and a stored text that parses to a well-formed state loads well formed |
| `StoreLaws.StartUpRunWellFormed` | src/store/use-acccounting.tsx:15-135 | from start-up on, ids stay unique over any admissible run of actions |
| `Store.ImportState` | src/store/use-acccounting.tsx:126-133 | unparsable input leaves the state unchanged; a parsed state replaces it wholesale |
| `Store.NewCosts` | src/store/use-acccounting.tsx:53-57 | each supplied cost keeps label and amount, receives its own id and has no mode |
| `Store.AddProduct` | src/store/use-acccounting.tsx:40-59 | exactly one product is appended with the given fields; earlier products and all sales are unchanged |
| `Store.UpdateProduct` | src/store/use-acccounting.tsx:61-68 | products with the id become the patch merged over them; all other products and all sales are unchanged; an unknown id changes nothing |
| `Store.DeleteProduct` | src/store/use-acccounting.tsx:69-75 | the result holds exactly the products without the id and exactly the sales not referring to it, each value as many times as before |
| `Store.AddRawCost` | src/store/use-acccounting.tsx:76-84 | only the matching products gain one cost at the end, with the given id and mode; an unknown product id changes nothing |
| `Store.UpdateRawCost` | src/store/use-acccounting.tsx:85-103 | inside the matching products only the costs with the id are merged; lengths and positions are kept; an unknown product id changes nothing |
| `Store.DeleteRawCost` | src/store/use-acccounting.tsx:104-116 | the matching products keep exactly their costs without the id, each as many times as before; other products and the sales are unchanged |
| `Store.AddSalesEntry` | src/store/use-acccounting.tsx:117-124 | exactly one entry with the given product id, quantity and time is appended; products are unchanged and the quantity is not validated |
| `Store.UnitCost` | src/store/use-acccounting.tsx:140-146 | the per-unit (or mode-less) cost sum of the product, 0 for an unknown id |
| `Store.UnitProfit` | src/store/use-acccounting.tsx:147-152 | price minus both the per-unit and the flat-total sums, 0 for an unknown id |
| `StoreLaws.AddProductPreservesWellFormed` | src/store/use-acccounting.tsx:40-59 | with a fresh product id and distinct cost ids, ids stay unique |
| `StoreLaws.AddedProductUnitFigures` | src/store/use-acccounting.tsx:140-152 | for a newly added product, unit cost is the sum of its costs and unit cost plus unit profit is its price |
| `StoreLaws.DeleteUndoesAddProduct` | src/store/use-acccounting.tsx:69-75 | deleting a freshly added product, which has no sales, restores the previous state |
| `StoreLaws.UpdateProductIdempotent` | src/store/use-acccounting.tsx:61-68 | applying the same product patch twice equals applying it once |
| `StoreLaws.UpdatedProductIsFound` | src/store/use-acccounting.tsx:61-68 | after a patch that keeps the id, looking the product up yields the merged product |
| `StoreLaws.UpdateProductPreservesWellFormed` | src/store/use-acccounting.tsx:61-68 | a patch that sets no id and no repeated cost ids keeps ids unique |
| `StoreLaws.DeleteProductPreservesWellFormed` | src/store/use-acccounting.tsx:69-75 | deleting a product keeps ids unique |
| `StoreLaws.DeleteProductKeepsSalesResolved` | src/store/use-acccounting.tsx:73 | if every sale referred to an existing product before a delete, it still does after it |
| `StoreLaws.DeleteProductKeepsProductOrder` | src/store/use-acccounting.tsx:72 | the remaining products keep their relative order |
| `StoreLaws.DeleteProductKeepsSaleOrder` | src/store/use-acccounting.tsx:73 | the remaining sales keep their relative order |
| `StoreLaws.DeleteRawCostKeepsCostOrder` | src/store/use-acccounting.tsx:104-116 | the costs left in the product keep their relative order, so the editor's row positions stay in order |
| `StoreLaws.DeleteProductAbsorbsSale` | src/store/use-acccounting.tsx:69-75 | a sale recorded for a product is removed with it: recording then deleting equals deleting |
| `StoreLaws.DeleteRawCostUndoesAdd` | src/store/use-acccounting.tsx:104-116 | deleting a cost just added under a fresh id restores the previous state |
| `StoreLaws.AddRawCostPreservesWellFormed` | src/store/use-acccounting.tsx:76-84 | adding a cost under a fresh id keeps ids unique |
| `StoreLaws.UpdateRawCostIdempotent` | src/store/use-acccounting.tsx:85-103 | applying the same cost patch twice equals applying it once |
| `StoreLaws.UpdateRawCostPreservesWellFormed` | src/store/use-acccounting.tsx:85-103 | a cost patch that sets no id keeps ids unique |
| `StoreLaws.DeleteRawCostPreservesWellFormed` | src/store/use-acccounting.tsx:104-116 | removing a cost keeps ids unique |
| `StoreLaws.CostRelabelKeepsUnitFigures` | src/store/use-acccounting.tsx:140-152 | renaming a cost changes neither unit cost nor unit profit of any product |
| `StoreLaws.UnitCostProfitGap` | src/store/use-acccounting.tsx:140-152 | price minus unit profit minus unit cost is exactly the product's flat-total costs: the two selectors disagree by those |
| `StoreLaws.ApplyPreservesWellFormed` | src/store/use-acccounting.tsx:38-135 | every store action, called with fresh ids and id-free patches, keeps ids unique |
| `StoreLaws.RunPreservesWellFormed` | src/store/use-acccounting.tsx:38-135 | ids stay unique over any sequence of such actions |
| `Grouping.TallySpec` | src/app/analysis/page.tsx:97-99 | a bucket exists exactly for the keys some item contributes to and holds the accumulation of exactly those items |
| `Grouping.TallySkips` | src/app/analysis/page.tsx:87-90 | an item that returns early changes no bucket |
| `LexOrder.SortedKeys` | src/app/analysis/page.tsx:101 | the keys, each once, in strictly ascending string order |
| `LexOrder.SortedUnique` | src/app/api/cloudinary-sign/route.ts:27-28 | two strictly sorted sequences with the same elements are equal, so the sorted order is unique |
| `Text.Trim` | src/app/edit/page.tsx:318 | empty exactly for all-whitespace text; otherwise cut out of the text right after its leading whitespace, followed only by whitespace, and starting and ending with a non-space |
| `Text.TrimOfPadded` | src/app/edit/page.tsx:318 | a core that neither starts nor ends with whitespace, padded with whitespace on both sides, trims to exactly that core |
| `Text.TrimIdempotent` | src/app/edit/page.tsx:318-320 | a trimmed title trims to itself |
| `Text.KeepDigitsCases` | src/app/add/productCard.tsx:54 | digit text is kept whole and text without digits becomes empty |
| `Text.KeepDigitsAppend` | src/app/add/productCard.tsx:54 | the digits of a concatenation are the digits of each part, in order |
| `Text.KeepDigitsChar` | src/app/add/productCard.tsx:54 | a single character is kept exactly when it is a digit |
| `Text.NumeralRoundTrip` | src/app/add/productCard.tsx:55 | reading the decimal numeral of a count gives the count back |
| `Analysis.FilteredSales` | src/app/analysis/page.tsx:70-78 | the kept sales are sales in range; every sale in range is kept, each copy of it; a sale with a valid timestamp is kept exactly when start ≤ time ≤ end |
| `Analysis.FilteredSalesKeepOrder` | src/app/analysis/page.tsx:70-78 | any two kept sales come from positions of the recorded sales in the same order |
| `Analysis.FilteredSalesMonotone` | src/app/analysis/page.tsx:70-78 | widening the range never drops a sale |
| `Analysis.DateKey` | src/app/analysis/page.tsx:88 | the key is the longest prefix without `T`, followed by a `T` or the end of the text |
| `Analysis.DateKeyOfIso` | src/app/analysis/page.tsx:88 | the key of `date + "T" + time` is the calendar date |
| `Analysis.ByDateSpec` | src/app/analysis/page.tsx:85-100 | a date has a point exactly when some sale with a timestamp and an existing product falls on it; its revenue is Σ quantity·price and its profit Σ quantity·(price − all costs) over exactly those sales |
| `Analysis.DanglingSaleIgnored` | src/app/analysis/page.tsx:89-90 | a sale whose product does not exist changes neither the series nor the by-product view |
| `Analysis.UntimedSaleIgnored` | src/app/analysis/page.tsx:87 | a sale with an empty timestamp changes nothing in the series |
| `Analysis.CostTotalsSpec` | src/app/analysis/page.tsx:124-130 | a label has a bucket exactly when some cost of some product carries it, holding the sum of all amounts with that exact label, dates ignored |
| `Analysis.SalesByTitleSpec` | src/app/analysis/page.tsx:157-164 | a title has a bucket exactly when a sale of an existing product with that title is in range; it holds the total quantity of all such sales, so equal titles merge |
| `Analysis.SeriesOf` | src/app/analysis/page.tsx:101-121 | labels are the dates, sorted; the revenue dataset comes first when shown, the profit dataset last when shown, each with one value per label |
| `Analysis.ChartData` | src/app/analysis/page.tsx:80-191 | revenue, profit and revenue-vs-profit give a series over the in-range sales; cost breakdown uses all products; sales by product uses the in-range sales |
| `Analysis.ChartSeriesValues` | src/app/analysis/page.tsx:101-121 | every plotted point is the reference revenue or profit sum of its date, and every label is a date some in-range sale counts toward |
| `AddPage.PendingTotals` | src/app/add/page.tsx:40-55 | revenue is Σ q·price, cost is Σ q·(per-unit costs), and the separately accumulated profit equals revenue − cost |
| `AddPage.NothingTypedNothingPending` | src/app/add/page.tsx:43 | with no quantity typed for any product, every figure is zero |
| `AddPage.UntypedProductAddsNothing` | src/app/add/page.tsx:43 | a product with no typed quantity leaves every figure unchanged |
| `AddPage.CommitSales` | src/app/add/page.tsx:72-83 | products are unchanged; the sales gain exactly the positive entries, in order, the k-th stamped with the k-th clock reading (one `new Date()` per `addSalesEntry`); the counter is their number |
| `AddPage.CommitSalesSpec` | src/app/add/page.tsx:72-83 | the commit only appends; the k-th new sale has a positive quantity and the k-th clock reading |
| `AddPage.CommitRecordsEntry` | src/app/add/page.tsx:72-83 | a positive entry with k positive entries before it is recorded as the k-th new sale, at the k-th clock reading |
| `AddPage.CommitNothing` | src/app/add/page.tsx:72-83 | with no positive entry the state is untouched and nothing is counted |
| `AddPage.MoveMapsInverse` | src/app/add/page.tsx:63 | the position maps of a move are mutually inverse bijections of the positions |
| `AddPage.ArrayMove` | src/app/add/page.tsx:63 | each position of the result holds the element the move brings there, with -1 meaning the last position |
| `AddPage.ArrayMoveKeepsElements` | src/app/add/page.tsx:63 | the dragged element lands at the target position, and the result is a permutation of the input: every element keeps its number of copies |
| `AddPage.ArrayMovePermutes` | src/app/add/page.tsx:63 | the moved sequence has the same multiset of elements as the input |
| `AddPage.ArrayMoveInverse` | src/app/add/page.tsx:63 | moving an element back restores the order |
| `AddPage.DragEnd` | src/app/add/page.tsx:57-70 | without a distinct drop target nothing changes; otherwise the products become exactly `ArrayMove` from the dragged product's index to the target's, a permutation with the dragged one at the target's position; sales are unchanged |
| `AddPage.DragEndPreservesWellFormed` | src/app/add/page.tsx:57-70 | reordering keeps ids unique |
| `AddPage.OnSave` | src/app/add/page.tsx:144-163 | only the saved product changes: title and costs when present, both image fields when either is present; the card's flag becomes false |
| `AddPage.SaveClosesCard` | src/app/add/page.tsx:85-91 | after a save the card is in edit mode exactly when edit-all is on |
| `AddPage.OutsideClickClearsPublicId` | src/app/add/productCard.tsx:126-134 | re-saving a card clears the public id of a product with an image and changes nothing otherwise |
| `AddPage.CardUploadClearsPublicId` | src/app/add/productCard.tsx:75-77 | an upload on the card stores the new URL and clears the public id |
| `AddPage.TitleKeystrokeRenames` | src/app/add/productCard.tsx:101-103 | a title keystroke renames only that product, leaves the sales alone and closes only that card |
| `ProductCard.SanitizeQty` | src/app/add/productCard.tsx:52-57 | blank exactly for empty text; digit text reads as its value; text without digits reads as 0 |
| `ProductCard.SanitizeSkipsNonDigit` | src/app/add/productCard.tsx:52-57 | a non-digit character anywhere in non-empty text changes nothing, so mixed text reads as its digits |
| `ProductCard.SanitizeDecimalPoint` | src/app/add/productCard.tsx:52-57 | "12.5" reads as 125 |
| `ProductCard.SanitizeMinusSign` | src/app/add/productCard.tsx:52-57 | "-3" reads as 3 |
| `ProductCard.SanitizeNumeral` | src/app/add/productCard.tsx:52-57 | sanitising the numeral of a count gives that count |
| `ProductCard.TitlePatch` | src/app/add/productCard.tsx:101-103 | a title keystroke saves only the title |
| `ProductCard.UploadPatch` | src/app/add/productCard.tsx:75-77 | an upload saves only the URL, with no public id |
| `ProductCard.OutsideClickPatch` | src/app/add/productCard.tsx:126-134 | an outside click saves the shown title, URL and costs, with no public id |
| `ProductCard.EditLabelAt` | src/app/add/productCard.tsx:162-166 | only the row at the index gets the new label; length and other rows are kept |
| `ProductCard.EditAmountAt` | src/app/add/productCard.tsx:175-181 | only the row at the index gets the parsed amount, or 0 when it is not a number |
| `ProductCard.EditModeAt` | src/app/add/productCard.tsx:185-190 | only the row at the index gets the chosen mode |
| `ProductCard.AddCostRow` | src/app/add/productCard.tsx:206-216 | exactly one row is appended: empty label, amount 0, per-unit |
| `ProductCard.EditLabelKeepsSums` | src/app/add/productCard.tsx:162-166 | relabelling changes no total |
| `ProductCard.EditAmountShiftsSums` | src/app/add/productCard.tsx:175-181 | the totals move by the amount's difference, only within the row's mode |
| `ProductCard.EditModeMovesAmount` | src/app/add/productCard.tsx:185-190 | a mode switch moves the row's amount between mode sums and keeps the grand total |
| `ProductCard.AddCostRowKeepsSums` | src/app/add/productCard.tsx:206-216 | a new row adds nothing to any total |
| `ProductCard.UploadFailure` | src/app/add/productCard.tsx:257-260 | an Error gives its message, a string itself, anything else "Error" |
| `EditPage.CardAndPageAgreeOnFailures` | src/app/edit/page.tsx:110-115 | the card and the Edit page describe an `Error` or a thrown string alike; for any other value the card says "Error" and the page "Unknown error" |
| `EditPage.SubmitNewProduct` | src/app/edit/page.tsx:317-326 | nothing is created exactly for an all-whitespace title; otherwise the trimmed title, price or 0, no costs or image, and a reset form |
| `EditPage.CreatedProductFigures` | src/app/edit/page.tsx:52-55 | a created product keeps ids unique, has unit cost 0 and unit profit equal to its price |
| `EditPage.SubmitRawCost` | src/app/edit/page.tsx:383-389 | an all-whitespace label adds nothing; otherwise the product gains one per-unit cost with the trimmed label and the amount, and the form resets |
| `EditPage.SubmittedCostRaisesUnitCost` | src/app/edit/page.tsx:226-232 | whatever mode the form shows, the added cost raises unit cost by its amount and leaves unit cost plus unit profit unchanged |
| `EditPage.ControlAction` | src/app/edit/page.tsx:104-215 | every control maps to a store action that sets no id; only Delete removes the product |
| `EditPage.UseControl` | src/app/edit/page.tsx:104-215 | each control edits only its product in place: title, price or image fields, or only the raw costs; Delete also removes the product's sales |
| `EditPage.SessionPreservesWellFormed` | src/app/edit/page.tsx:104-215 | ids stay unique over any sequence of control uses |
| `EditPage.ShownMode` | src/app/edit/page.tsx:196 | the shown mode is per-unit exactly when the cost counts as per-unit, and a present mode is shown as is |
| `EditPage.UploadFailureMessage` | src/app/edit/page.tsx:110-121 | the caught message unless its trimmed form starts with `<`, then the fixed notice; what is shown never looks like markup |
| `CloudinarySign.ParamsToSign` | src/app/api/cloudinary-sign/route.ts:21-25 | keys are timestamp and folder, plus public_id exactly when it is non-empty; the folder falls back to the environment, then to "accounting" |
| `CloudinarySign.Sign` | src/app/api/cloudinary-sign/route.ts:6-49 | a signature exactly when the body is read and secret, cloud name and key are all set; 400 with the message or "Unknown error", 500 "Cloudinary not configured" otherwise |
| `CloudinarySign.SortedParamKeys` | src/app/api/cloudinary-sign/route.ts:27-28 | the signed keys sort as folder, public_id, timestamp |
| `CloudinarySign.StringToSignShape` | src/app/api/cloudinary-sign/route.ts:27-30 | the signed string is `folder=F&public_id=P&timestamp=T`, or `folder=F&timestamp=T` without a public id |
| `CloudinarySign.EmptyPublicIdIgnored` | src/app/api/cloudinary-sign/route.ts:24 | an empty public id is signed exactly as an absent one |

## Left out

- Persistence and React plumbing (`localStorage`, `useState`/`useEffect`/`useMemo`, JSX, styling, toasts): only the load fallback and the state transitions are modelled.
- The JSON text format, `exportState` and the shape of parsed data: parsing is an `Option<AccountingState>` parameter, and a parsed value is trusted as the code does.
- `nanoid`, `new Date().toISOString()` and `parseISO`: fresh ids, the time and the parse result are parameters; timezones and calendar rules are not modelled.
- IEEE-754 rounding, `Number()` of arbitrary text (NaN, overflow, exponent forms), `valueAsNumber` of an empty price field, and `toFixed(2)` display: numbers are exact reals.
- `Analysis.ChartData`: the bucket charts (cost breakdown, sales by product) are maps; the `Object.keys` order of their labels, which puts integer-like keys first, is not modelled.
- `AddPage.CommitSales`: the quantity map's `Object.entries` order is an input sequence of entries, and the map's clearing after a commit is not part of the result.
- `AddPage.DragEnd`: the products are taken from the store state; the page's separate local copy and the JSON round trip through `importState` are not modelled.
- JavaScript prototype keys such as `__proto__` in the grouped records, and UTF-16 code unit order for characters outside the Basic Multilingual Plane.
- Chart.js colours, chart styles and the chart component choice: presentation only.
- `src/lib/cloudinary.ts` and the upload network flows, and the SHA-1 digest of the signing route, which is a parameter.
- Firebase auth, protected routes, header, sidebar, layout, the landing page and the outside-click DOM listener.
- dnd-kit collision detection: only the resulting `arrayMove` is modelled.
