/**
  The product card of the Add page: the quantity field's sanitising, the patches the
  card hands to its `onSave` callback, and the positional raw-cost edits of its
  editor. Fresh cost ids are parameters.
*/
module ProductCard {
  import opened Wrappers
  import opened Accounting
  import Seqs
  import Text
  import Errors

  /** The quantity field: blank (the empty text) or a whole count. */
  datatype Quantity = Blank | Count(n: nat)

  /**
    `handleQtyChange`: empty text stays blank; any other text keeps only its digits and
    reads them as a number, so text without digits reads as 0.
  */
  function SanitizeQty(raw: string): (q: Quantity)
    ensures q.Blank? <==> raw == ""
    ensures raw != "" && Text.AllDigits(raw) ==> q == Count(Text.DigitsValue(raw))
    ensures raw != "" && (forall i :: 0 <= i < |raw| ==> !Text.IsDigit(raw[i])) ==> q == Count(0)
  {
    if raw == "" then Blank
    else
      Text.KeepDigitsCases(raw);
      Count(Text.DigitsValue(Text.KeepDigits(raw)))
  }

  /**
    A character that is not a digit, such as the point of "12.5" or the sign of "-3",
    is dropped without a trace: the text reads as it would without it. With the
    contract of `SanitizeQty` this fixes the reading of every text.
  */
  lemma SanitizeSkipsNonDigit(a: string, c: char, b: string)
    requires !Text.IsDigit(c) && a + b != ""
    ensures SanitizeQty(a + [c] + b) == SanitizeQty(a + b)
  {
    Text.KeepDigitsAppend(a + [c], b);
    Text.KeepDigitsAppend(a, [c]);
    Text.KeepDigitsChar(c);
    Text.KeepDigitsAppend(a, b);
    assert Text.KeepDigits(a) + [] == Text.KeepDigits(a);
  }

  /** "12.5" reads as 125: the point is dropped. */
  lemma SanitizeDecimalPoint()
    ensures SanitizeQty("12.5") == Count(125)
  {
    SanitizeSkipsNonDigit("12", '.', "5");
    assert "12" + ['.'] + "5" == "12.5" && "12" + "5" == "125";
    NumeralsUpTo125();
    SanitizeNumeral(125);
  }

  /** "-3" reads as 3: the sign is dropped. */
  lemma SanitizeMinusSign()
    ensures SanitizeQty("-3") == Count(3)
  {
    SanitizeSkipsNonDigit("", '-', "3");
    assert "" + ['-'] + "3" == "-3" && "" + "3" == "3";
    assert Text.Numeral(3) == "3";
    SanitizeNumeral(3);
  }

  /** The numeral of 125. */
  lemma NumeralsUpTo125()
    ensures Text.Numeral(125) == "125"
  {
    assert Text.Numeral(1) == "1";
    assert Text.Numeral(12) == Text.Numeral(1) + "2";
    assert Text.Numeral(125) == Text.Numeral(12) + "5";
  }

  /** The field shows a count as its numeral; sanitising that text gives the count back. */
  lemma SanitizeNumeral(n: nat)
    ensures SanitizeQty(Text.Numeral(n)) == Count(n)
  {
    Text.NumeralRoundTrip(n);
  }

  /** `SavePatch`: what the card asks its owner to save; every field is optional. */
  datatype SavePatch = SavePatch(
    title: Option<string>,
    imageUrl: Option<string>,
    imagePublicId: Option<string>,
    rawCosts: Option<seq<RawCost>>)

  /** The Save button: `onSave({}, true)`. */
  const SaveButtonPatch: SavePatch := SavePatch(None, None, None, None)

  /** Each keystroke in the title field saves the new title. */
  function TitlePatch(text: string): (p: SavePatch)
    ensures p.title == Some(text) && p.imageUrl.None? && p.imagePublicId.None? && p.rawCosts.None?
  {
    SavePatch(Some(text), None, None, None)
  }

  /** A finished upload saves the new URL and nothing else; in particular no public id. */
  function UploadPatch(url: string): (p: SavePatch)
    ensures p.imageUrl == Some(url) && p.imagePublicId.None? && p.title.None? && p.rawCosts.None?
  {
    SavePatch(None, Some(url), None, None)
  }

  /** A click outside the editor saves the card's title, URL and costs as they are shown; no public id. */
  function OutsideClickPatch(title: string, imageUrl: Option<string>, rawCosts: seq<RawCost>): (p: SavePatch)
    ensures p.title == Some(title) && p.imageUrl == imageUrl && p.imagePublicId.None? && p.rawCosts == Some(rawCosts)
  {
    SavePatch(Some(title), imageUrl, None, Some(rawCosts))
  }

  /** Replaces the label of a cost. */
  function Relabel(text: string): RawCost -> RawCost {
    (rc: RawCost) => rc.(name := text)
  }

  /** Replaces the amount of a cost. */
  function Reamount(amount: real): RawCost -> RawCost {
    (rc: RawCost) => rc.(amount := amount)
  }

  /** Sets the mode of a cost. */
  function Remode(m: Mode): RawCost -> RawCost {
    (rc: RawCost) => rc.(mode := Some(m))
  }

  /** The label input of row `idx`: the row's label becomes `text`, every other row is kept. */
  function EditLabelAt(costs: seq<RawCost>, idx: int, text: string): (r: seq<RawCost>)
    ensures |r| == |costs|
    ensures forall j :: 0 <= j < |costs| && j != idx ==> r[j] == costs[j]
    ensures 0 <= idx < |costs| ==> r[idx] == costs[idx].(name := text)
  {
    Seqs.UpdateAt(costs, idx, Relabel(text))
  }

  /**
    The amount input of row `idx`: `Number(text) || 0`, where `parsed` is `Number(text)`
    and `None` stands for NaN; NaN (like 0) stores 0.
  */
  function EditAmountAt(costs: seq<RawCost>, idx: int, parsed: Option<real>): (r: seq<RawCost>)
    ensures |r| == |costs|
    ensures forall j :: 0 <= j < |costs| && j != idx ==> r[j] == costs[j]
    ensures 0 <= idx < |costs| ==> r[idx] == costs[idx].(amount := if parsed.Some? then parsed.value else 0.0)
  {
    Seqs.UpdateAt(costs, idx, Reamount(parsed.GetOr(0.0)))
  }

  /** The mode selector of row `idx`. */
  function EditModeAt(costs: seq<RawCost>, idx: int, m: Mode): (r: seq<RawCost>)
    ensures |r| == |costs|
    ensures forall j :: 0 <= j < |costs| && j != idx ==> r[j] == costs[j]
    ensures 0 <= idx < |costs| ==> r[idx] == costs[idx].(mode := Some(m))
  {
    Seqs.UpdateAt(costs, idx, Remode(m))
  }

  /** The "Add cost" button: one more row, blank, zero and per-unit, with a fresh id. */
  function AddCostRow(costs: seq<RawCost>, freshId: string): (r: seq<RawCost>)
    ensures |r| == |costs| + 1 && r[..|costs|] == costs
    ensures r[|costs|] == RawCost(freshId, "", 0.0, Some(PerUnit))
  {
    var row := RawCost(freshId, "", 0.0, Some(PerUnit));
    assert (costs + [row])[..|costs|] == costs;
    costs + [row]
  }

  /** Relabelling a row changes no total: neither the sum of amounts nor the per-mode sums. */
  lemma EditLabelKeepsSums(costs: seq<RawCost>, idx: int, text: string, m: Mode)
    ensures SumAmounts(EditLabelAt(costs, idx, text)) == SumAmounts(costs)
    ensures ModeSum(EditLabelAt(costs, idx, text), m) == ModeSum(costs, m)
  {
    SameAmountsAndModes(costs, EditLabelAt(costs, idx, text), m);
  }

  /** Editing a row's amount moves the totals by the difference, and only within the row's mode. */
  lemma EditAmountShiftsSums(costs: seq<RawCost>, idx: int, parsed: Option<real>, m: Mode)
    requires 0 <= idx < |costs|
    ensures var r := EditAmountAt(costs, idx, parsed);
      && SumAmounts(r) == SumAmounts(costs) - costs[idx].amount + r[idx].amount
      && ModeSum(r, m) == ModeSum(costs, m) + (if EffectiveMode(costs[idx]) == m then r[idx].amount - costs[idx].amount else 0.0)
  {
    SumsPointChange(costs, EditAmountAt(costs, idx, parsed), idx, m);
  }

  /** Switching a row's mode moves its amount from the old mode's sum to the new one; the grand total is kept. */
  lemma EditModeMovesAmount(costs: seq<RawCost>, idx: int, m: Mode)
    requires 0 <= idx < |costs|
    ensures var r := EditModeAt(costs, idx, m);
      && SumAmounts(r) == SumAmounts(costs)
      && ModeSum(r, m) == ModeSum(costs, m) + (if EffectiveMode(costs[idx]) == m then 0.0 else costs[idx].amount)
  {
    SumsPointChange(costs, EditModeAt(costs, idx, m), idx, m);
  }

  /** A new blank row adds nothing to any total. */
  lemma AddCostRowKeepsSums(costs: seq<RawCost>, freshId: string, m: Mode)
    ensures SumAmounts(AddCostRow(costs, freshId)) == SumAmounts(costs)
    ensures ModeSum(AddCostRow(costs, freshId), m) == ModeSum(costs, m)
  {
    var row := RawCost(freshId, "", 0.0, Some(PerUnit));
    SumsAppend(costs, [row], m);
    assert SumAmounts([row]) == 0.0;
    assert ModeSum([row], m) == 0.0;
  }

  /**
    The description of a failed upload on the card: an `Error`'s message, a thrown
    string itself, and "Error" for anything else.
  */
  function UploadFailure(e: Errors.Thrown): (description: string)
    ensures e.ErrorObject? ==> description == e.message
    ensures e.ThrownText? ==> description == e.text
    ensures e.OtherValue? ==> description == "Error"
  {
    match e
    case ErrorObject(message) => message
    case ThrownText(text) => text
    case OtherValue => "Error"
  }
}
