/**
  The Edit page: the New Product and Add Raw Cost forms with their guards, the
  per-product controls that call the store directly, and the upload failure message.
  Fresh ids are parameters; the controls map onto the store's actions.
*/
module EditPage {
  import opened Wrappers
  import opened Accounting
  import Store
  import StoreLaws
  import Seqs
  import Text
  import Errors
  import ProductCard

  // ---------------------------------------------------------------- new product form

  /** The New Product dialog's fields; `price` is `None` while the price text is empty. */
  datatype NewProductForm = NewProductForm(title: string, price: Option<real>)

  /** What the form shows after a creation: an empty title and the price "0". */
  const ResetProductForm: NewProductForm := NewProductForm("", Some(0.0))

  /** The product handed to `addProduct`, if any, and the form afterwards. */
  datatype Created = Created(product: Option<Store.NewProduct>, form: NewProductForm)

  /**
    The Create button: a title that is empty after trimming creates nothing and keeps
    the form; otherwise the trimmed title, the price (0 for empty text) and no raw
    costs or image are handed on, and the form resets.
  */
  function SubmitNewProduct(form: NewProductForm): (r: Created)
    ensures r.product.None? <==> Text.AllSpace(form.title)
    ensures r.product.None? ==> r.form == form
    ensures r.product.Some? ==>
      var np := r.product.value;
      && r.form == ResetProductForm
      && np.title == Text.Trim(form.title) && Text.Trim(np.title) == np.title
      && np.pricePerItem == (if form.price.Some? then form.price.value else 0.0)
      && np.imageUrl.None? && np.imagePublicId.None? && np.rawCosts == []
  {
    var title := Text.Trim(form.title);
    if title == "" then Created(None, form)
    else
      Text.TrimIdempotent(form.title);
      Created(Some(Store.NewProduct(title, form.price.GetOr(0.0), None, None, [])), ResetProductForm)
  }

  /**
    Creating a product with a fresh id keeps the identity invariant, and the new
    product has no unit cost and a unit profit equal to its price.
  */
  lemma CreatedProductFigures(s: AccountingState, form: NewProductForm, id: string)
    requires WellFormed(s) && FreshProductId(s, id)
    requires SubmitNewProduct(form).product.Some?
    ensures var np := SubmitNewProduct(form).product.value;
      var r := Store.AddProduct(s, np, id, []);
      && WellFormed(r)
      && Store.UnitCost(r, id) == 0.0
      && Store.UnitProfit(r, id) == np.pricePerItem
  {
    var np := SubmitNewProduct(form).product.value;
    StoreLaws.AddProductPreservesWellFormed(s, np, id, []);
    StoreLaws.AddedProductUnitFigures(s, np, id, []);
  }

  // ---------------------------------------------------------------- add raw cost form

  /** The Add Raw Cost form's fields. */
  datatype RawCostForm = RawCostForm(name: string, amount: real, mode: Mode)

  /** What the form shows after an addition. */
  const BlankCostForm: RawCostForm := RawCostForm("", 0.0, PerUnit)

  /** The state and the form after pressing Add. */
  datatype CostAdded = CostAdded(state: AccountingState, form: RawCostForm)

  /**
    The Add button and its caller: a label that is empty after trimming adds nothing;
    otherwise the trimmed label and the amount are added to the product as a per-unit
    cost (the caller does not pass on the mode chosen in the form), and the form resets.
  */
  function SubmitRawCost(s: AccountingState, productId: string, form: RawCostForm, costId: string): (r: CostAdded)
    ensures Text.AllSpace(form.name) ==> r == CostAdded(s, form)
    ensures !Text.AllSpace(form.name) ==> r.form == BlankCostForm
    ensures r.state.sales == s.sales && |r.state.products| == |s.products|
    ensures forall i :: 0 <= i < |s.products| && s.products[i].id != productId ==> r.state.products[i] == s.products[i]
    ensures forall i :: 0 <= i < |s.products| && s.products[i].id == productId ==>
      r.state.products[i] == s.products[i].(rawCosts := r.state.products[i].rawCosts)
    ensures forall i :: 0 <= i < |s.products| && s.products[i].id == productId ==>
      r.state.products[i].rawCosts == s.products[i].rawCosts
        + (if Text.AllSpace(form.name) then [] else [RawCost(costId, Text.Trim(form.name), form.amount, Some(PerUnit))])
  {
    var name := Text.Trim(form.name);
    if name == "" then
      assert forall i :: 0 <= i < |s.products| ==> s.products[i].rawCosts + [] == s.products[i].rawCosts;
      CostAdded(s, form)
    else CostAdded(Store.AddRawCost(s, productId, Store.CostInput(name, form.amount, PerUnit), costId), BlankCostForm)
  }

  /**
    Whatever mode the form shows, a cost added through it raises the product's unit
    cost by its amount, and leaves the unit cost plus unit profit (the price) alone.
  */
  lemma SubmittedCostRaisesUnitCost(s: AccountingState, i: int, form: RawCostForm, costId: string)
    requires UniqueProductIds(s.products)
    requires 0 <= i < |s.products|
    requires !Text.AllSpace(form.name)
    ensures var id := s.products[i].id;
      var r := SubmitRawCost(s, id, form, costId).state;
      && Store.UnitCost(r, id) == Store.UnitCost(s, id) + form.amount
      && Store.UnitCost(r, id) + Store.UnitProfit(r, id) == Store.UnitCost(s, id) + Store.UnitProfit(s, id)
  {
    var id := s.products[i].id;
    var r := SubmitRawCost(s, id, form, costId).state;
    var p := s.products[i];
    var rc := RawCost(costId, Text.Trim(form.name), form.amount, Some(PerUnit));
    assert r.products[i] == p.(rawCosts := p.rawCosts + [rc]);
    assert UniqueProductIds(r.products) by {
      assert forall j :: 0 <= j < |r.products| ==> r.products[j].id == s.products[j].id;
    }
    StoreLaws.UnitFiguresAt(s, i);
    StoreLaws.UnitFiguresAt(r, i);
    SumsAppend(p.rawCosts, [rc], PerUnit);
    SumsAppend(p.rawCosts, [rc], Total);
    assert ModeSum([rc], PerUnit) == form.amount;
    assert ModeSum([rc], Total) == 0.0;
  }

  // ---------------------------------------------------------------- per-product controls

  /** A control on a product's card, with what the user entered. */
  datatype Control =
    | TitleInput(text: string)
    | PriceInput(value: real)
    | CostLabelInput(costId: string, text: string)
    | CostAmountInput(costId: string, value: real)
    | CostModeSelect(costId: string, mode: Mode)
    | RemoveCostButton(costId: string)
    | DeleteButton
    | UploadDone(url: string, publicId: string)

  /** The store action a control triggers on product `productId`. */
  function ControlAction(productId: string, c: Control): (a: StoreLaws.Action)
    ensures StoreLaws.WellShaped(a)
    ensures c.DeleteButton? <==> a.DeleteProductAction?
    ensures a.UpdateProductAction? ==> a.id == productId && a.patch.id.None? && a.patch.rawCosts.None?
    ensures a.UpdateRawCostAction? ==> a.productId == productId && a.costPatch.id.None?
  {
    var none := Store.NoProductChange;
    match c
    case TitleInput(text) => StoreLaws.UpdateProductAction(productId, none.(title := Some(text)))
    case PriceInput(value) => StoreLaws.UpdateProductAction(productId, none.(pricePerItem := Some(value)))
    case CostLabelInput(costId, text) =>
      StoreLaws.UpdateRawCostAction(productId, costId, Store.CostPatch(None, Some(text), None, None))
    case CostAmountInput(costId, value) =>
      StoreLaws.UpdateRawCostAction(productId, costId, Store.CostPatch(None, None, Some(value), None))
    case CostModeSelect(costId, mode) =>
      StoreLaws.UpdateRawCostAction(productId, costId, Store.CostPatch(None, None, None, Some(Some(mode))))
    case RemoveCostButton(costId) => StoreLaws.DeleteRawCostAction(productId, costId)
    case DeleteButton => StoreLaws.DeleteProductAction(productId)
    case UploadDone(url, publicId) =>
      StoreLaws.UpdateProductAction(productId, none.(imageUrl := Some(Some(url)), imagePublicId := Some(Some(publicId))))
  }

  /**
    Using a control: every control but Delete edits the one product in place (ids and
    position kept, sales untouched); the title, price and upload controls change just
    their fields, the cost controls just the raw costs.
  */
  function UseControl(s: AccountingState, productId: string, c: Control): (r: AccountingState)
    ensures !c.DeleteButton? ==>
      && r.sales == s.sales && |r.products| == |s.products|
      && (forall i :: 0 <= i < |s.products| ==> r.products[i].id == s.products[i].id)
      && (forall i :: 0 <= i < |s.products| && s.products[i].id != productId ==> r.products[i] == s.products[i])
    ensures forall i :: 0 <= i < |s.products| && s.products[i].id == productId ==>
      && (c.TitleInput? ==> r.products[i] == s.products[i].(title := c.text))
      && (c.PriceInput? ==> r.products[i] == s.products[i].(pricePerItem := c.value))
      && (c.UploadDone? ==> r.products[i] == s.products[i].(imageUrl := Some(c.url), imagePublicId := Some(c.publicId)))
      && (c.CostLabelInput? || c.CostAmountInput? || c.CostModeSelect? || c.RemoveCostButton? ==>
            r.products[i] == s.products[i].(rawCosts := r.products[i].rawCosts))
    ensures c.DeleteButton? ==>
      && FreshProductId(r, productId)
      && (forall k :: 0 <= k < |r.sales| ==> r.sales[k].productId != productId)
  {
    StoreLaws.Apply(s, ControlAction(productId, c))
  }

  /** The mode selector shows an absent mode as per-unit, which is how every total reads it. */
  function ShownMode(rc: RawCost): (m: Mode)
    ensures m == PerUnit <==> CountsPerUnit(rc)
    ensures rc.mode.Some? ==> m == rc.mode.value
  {
    rc.mode.GetOr(PerUnit)
  }

  /** One control use keeps ids unique. */
  lemma ControlKeepsWellFormed(s: AccountingState, productId: string, c: Control)
    requires WellFormed(s)
    ensures WellFormed(UseControl(s, productId, c))
  {
    var a := ControlAction(productId, c);
    assert StoreLaws.Admissible(s, a);
    StoreLaws.ApplyPreservesWellFormed(s, a);
  }

  /** A session of control uses, each on some product. */
  function Session(s: AccountingState, steps: seq<(string, Control)>): AccountingState
    decreases |steps|
  {
    if |steps| == 0 then s else Session(UseControl(s, steps[0].0, steps[0].1), steps[1..])
  }

  /** Whatever the controls are used for, product ids and raw-cost ids stay unique. */
  lemma {:induction false} SessionPreservesWellFormed(s: AccountingState, steps: seq<(string, Control)>)
    requires WellFormed(s)
    ensures WellFormed(Session(s, steps))
    decreases |steps|
  {
    if |steps| > 0 {
      ControlKeepsWellFormed(s, steps[0].0, steps[0].1);
      SessionPreservesWellFormed(UseControl(s, steps[0].0, steps[0].1), steps[1..]);
    }
  }

  // ---------------------------------------------------------------- upload failure

  /** The notice shown instead of a message that looks like markup. */
  const HtmlNotice: string := "Server returned an unexpected HTML response."

  /** After trimming, the text starts with `<`. */
  predicate LooksLikeHtml(m: string) {
    var t := Text.Trim(m);
    |t| > 0 && t[0] == '<'
  }

  /** The caught value as a message: an `Error`'s message, a thrown string, else "Unknown error". */
  function ThrownMessage(e: Errors.Thrown): string {
    match e
    case ErrorObject(message) => message
    case ThrownText(text) => text
    case OtherValue => "Unknown error"
  }

  /**
    The description of a failed upload: the caught message, unless it looks like
    markup, in which case the fixed notice. What is shown never looks like markup.
  */
  function UploadFailureMessage(e: Errors.Thrown): (m: string)
    ensures !LooksLikeHtml(m)
    ensures LooksLikeHtml(ThrownMessage(e)) ==> m == HtmlNotice
    ensures !LooksLikeHtml(ThrownMessage(e)) ==> m == ThrownMessage(e)
  {
    var message := ThrownMessage(e);
    if LooksLikeHtml(message) then
      assert HtmlNotice[0] == 'S';
      Text.TrimKeepsFirst(HtmlNotice);
      HtmlNotice
    else message
  }

  /**
    The Add page's card and the Edit page describe a failed upload alike: both show an
    `Error`'s message and a thrown string as is, and differ only in the fallback for
    any other value ("Error" on the card, "Unknown error" here).
  */
  lemma CardAndPageAgreeOnFailures(e: Errors.Thrown)
    ensures !e.OtherValue? ==> ProductCard.UploadFailure(e) == ThrownMessage(e)
    ensures e.OtherValue? ==> ProductCard.UploadFailure(e) == "Error" && ThrownMessage(e) == "Unknown error"
  {
  }
}
