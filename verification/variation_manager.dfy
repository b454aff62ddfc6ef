/**
 The size editor of the back office: the add and edit forms, their
 defaults, how typed numbers are read, the discount checkbox, the
 validation run before a call, and how the editor's state moves on add,
 edit, update and "Add New Size".  The add and update calls are
 parameters: their outcome comes in as a `CallOutcome`.
 */
module VariationManager {
  import opened Catalog

  /** The six editable fields of a size. */
  datatype Draft = Draft(
    name: string,
    quantityMg: int,
    price: int,
    discountPrice: Option<int>,
    discountActive: bool,
    stock: int)

  /** The form the editor opens with, and resets to after an add: no name, 5 mg, the product's base price, no discount, no stock. */
  function DefaultDraft(p: Product): (r: Draft)
    ensures r.name == "" && r.quantityMg == 5 && r.price == p.basePrice
    ensures r.discountPrice.None? && !r.discountActive && r.stock == 0
  {
    Draft("", 5, p.basePrice, None, false, 0)
  }

  /** The add guard: a name, a positive price and a positive amount. */
  function AddValid(d: Draft): (r: bool)
    ensures r ==> |d.name| > 0 && d.price >= 1 && d.quantityMg >= 1
    ensures !r ==> d.name == "" || d.price <= 0 || d.quantityMg <= 0
  {
    d.name != "" && d.price > 0 && d.quantityMg > 0
  }

  /** The update guard: the same, and a size being edited. */
  function UpdateValid(editingId: Option<string>, d: Draft): (r: bool)
    ensures r ==> AddValid(d) && editingId.Some? && editingId.value != ""
    ensures editingId.None? ==> !r
    ensures editingId.Some? && editingId.value != "" ==> (r <==> AddValid(d))
  {
    editingId.Some? && editingId.value != "" && AddValid(d)
  }

  /** The freshly opened form is never valid: it has no name yet. */
  lemma DefaultNotSubmittable(p: Product)
    ensures !AddValid(DefaultDraft(p))
  {
  }

  /** What `parseFloat` / `parseInt` made of the typed text. */
  datatype Parsed = NaN | Number(n: int)

  /** `parse(text) || 0`, used for amount, price and stock. */
  function NumberOrZero(x: Parsed): (r: int)
    ensures x.NaN? ==> r == 0
    ensures x.Number? ==> r == x.n
  {
    match x
    case NaN => 0
    case Number(n) => n
  }

  /** `parseFloat(text) || null`, used for the discount price: no number and 0 both mean no discount price. */
  function DiscountOrNull(x: Parsed): (r: Option<int>)
    ensures r.None? <==> x.NaN? || x.n == 0
    ensures r.Some? ==> r.value == x.n && r.value != 0
  {
    match x
    case NaN => None
    case Number(n) => if n == 0 then None else Some(n)
  }

  /** Text that is not a number, typed as price or amount, reads as 0 and so blocks the submit. */
  lemma UnparsedNumbersFailValidation(d: Draft, price: Parsed, amount: Parsed)
    requires price.NaN? || amount.NaN?
    ensures !AddValid(d.(price := NumberOrZero(price), quantityMg := NumberOrZero(amount)))
  {
  }

  /** The discount checkbox: checking keeps the typed discount price, unchecking clears it. */
  function ToggleDiscount(d: Draft, checked: bool): (r: Draft)
    ensures r.discountActive == checked
    ensures checked ==> r.discountPrice == d.discountPrice
    ensures !checked ==> r.discountPrice.None?
    ensures r.(discountActive := d.discountActive, discountPrice := d.discountPrice) == d
  {
    d.(discountActive := checked, discountPrice := if checked then d.discountPrice else None)
  }

  /** Clicking the checkbox into the same state twice is clicking it once. */
  lemma ToggleDiscountIdempotent(d: Draft, checked: bool)
    ensures ToggleDiscount(ToggleDiscount(d, checked), checked) == ToggleDiscount(d, checked)
  {
  }

  /** The edit form loaded from a size: its six fields. */
  function LoadDraft(v: Variation): (r: Draft)
    ensures r.name == v.name && r.quantityMg == v.quantityMg && r.price == v.price
    ensures r.discountPrice == v.discountPrice && r.discountActive == v.discountActive && r.stock == v.stock
  {
    Draft(v.name, v.quantityMg, v.price, v.discountPrice, v.discountActive, v.stock)
  }

  /** The size as an update with this draft leaves it: the six fields replaced, id and product kept. */
  function ApplyDraft(v: Variation, d: Draft): (r: Variation)
    ensures r.id == v.id && r.productId == v.productId
    ensures LoadDraft(r) == d
  {
    v.(name := d.name, quantityMg := d.quantityMg, price := d.price,
       discountPrice := d.discountPrice, discountActive := d.discountActive, stock := d.stock)
  }

  /** Saving an unchanged edit form writes back exactly the size that was loaded. */
  lemma UnchangedEditIsNoOp(v: Variation)
    ensures ApplyDraft(v, LoadDraft(v)) == v
  {
  }

  /** The editor: whether the add form is open, which size is being edited, and the two forms. */
  datatype Editor = Editor(adding: bool, editingId: Option<string>, newDraft: Draft, editDraft: Draft)

  /** The editor as it opens for a product. */
  function InitialEditor(p: Product): (r: Editor)
    ensures !r.adding && r.editingId.None?
    ensures r.newDraft == DefaultDraft(p) && r.editDraft == DefaultDraft(p)
  {
    Editor(false, None, DefaultDraft(p), DefaultDraft(p))
  }

  /** How an add or update call came back. */
  datatype CallOutcome = Succeeded | FailedWith(error: string) | Threw

  /** The editor after an action, and the alert it raised. */
  datatype Step = Step(editor: Editor, alert: string)

  const InvalidMessage: string := "Please fill in all fields correctly"
  const AddedMessage: string := "Variation added successfully!"
  const AddFailedMessage: string := "Failed to add variation"
  const UpdatedMessage: string := "Variation updated successfully!"
  const UpdateFailedMessage: string := "Failed to update variation"

  /** `handleAddVariation`: an invalid form only alerts; a successful add resets the form and closes it; a failed one leaves everything as it was. */
  function SubmitAdd(e: Editor, p: Product, outcome: CallOutcome): (r: Step)
    ensures !AddValid(e.newDraft) ==> r == Step(e, InvalidMessage)
    ensures AddValid(e.newDraft) && outcome.Succeeded? ==>
              r.editor == e.(adding := false, newDraft := DefaultDraft(p))
    ensures AddValid(e.newDraft) && !outcome.Succeeded? ==> r.editor == e
    ensures AddValid(e.newDraft) && outcome.Succeeded? ==> r.alert == AddedMessage
    ensures AddValid(e.newDraft) && outcome.FailedWith? ==>
              r.alert == if outcome.error != "" then outcome.error else AddFailedMessage
    ensures AddValid(e.newDraft) && outcome.Threw? ==> r.alert == AddFailedMessage
  {
    if !AddValid(e.newDraft) then Step(e, InvalidMessage)
    else match outcome
      case Succeeded => Step(e.(adding := false, newDraft := DefaultDraft(p)), AddedMessage)
      case FailedWith(err) => Step(e, if err != "" then err else AddFailedMessage)
      case Threw => Step(e, AddFailedMessage)
  }

  /** After a successful add, the form is back to what it was when the editor opened. */
  lemma AddResetsToInitialForm(e: Editor, p: Product)
    requires AddValid(e.newDraft)
    ensures SubmitAdd(e, p, Succeeded).editor.newDraft == InitialEditor(p).newDraft
  {
  }

  /** `handleEditVariation`: edit this size, with its fields loaded, and close the add form. */
  function StartEdit(e: Editor, v: Variation): (r: Editor)
    ensures r.editingId == Some(v.id) && r.editDraft == LoadDraft(v) && !r.adding
    ensures r.newDraft == e.newDraft
  {
    e.(editingId := Some(v.id), editDraft := LoadDraft(v), adding := false)
  }

  /** `handleUpdateVariation`: an invalid form or no size being edited only alerts; a successful update ends the edit; every outcome of the call raises its own alert. */
  function SubmitUpdate(e: Editor, outcome: CallOutcome): (r: Step)
    ensures !UpdateValid(e.editingId, e.editDraft) ==> r == Step(e, InvalidMessage)
    ensures UpdateValid(e.editingId, e.editDraft) && outcome.Succeeded? ==>
              r.editor == e.(editingId := None)
    ensures UpdateValid(e.editingId, e.editDraft) && !outcome.Succeeded? ==> r.editor == e
    ensures UpdateValid(e.editingId, e.editDraft) && outcome.Succeeded? ==> r.alert == UpdatedMessage
    ensures UpdateValid(e.editingId, e.editDraft) && outcome.FailedWith? ==>
              r.alert == if outcome.error != "" then outcome.error else UpdateFailedMessage
    ensures UpdateValid(e.editingId, e.editDraft) && outcome.Threw? ==> r.alert == UpdateFailedMessage
  {
    if !UpdateValid(e.editingId, e.editDraft) then Step(e, InvalidMessage)
    else match outcome
      case Succeeded => Step(e.(editingId := None), UpdatedMessage)
      case FailedWith(err) => Step(e, if err != "" then err else UpdateFailedMessage)
      case Threw => Step(e, UpdateFailedMessage)
  }

  /** "Add New Size" / "Cancel": flip the add form and drop any edit in progress. */
  function ToggleAddMode(e: Editor): (r: Editor)
    ensures r.adding == !e.adding && r.editingId.None?
    ensures r.newDraft == e.newDraft && r.editDraft == e.editDraft
  {
    e.(adding := !e.adding, editingId := None)
  }

  /** Editing closes the add form; opening or closing the add form ends any edit. */
  lemma EditAndAddExclusive(e: Editor, v: Variation)
    ensures !StartEdit(e, v).adding
    ensures ToggleAddMode(e).editingId.None?
    ensures ToggleAddMode(ToggleAddMode(e)) == e.(editingId := None)
  {
  }
}
