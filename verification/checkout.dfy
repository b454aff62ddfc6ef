/**
 Checkout: the three-step flow (details, payment, confirmation), the
 customer-details validator, the order-items snapshot taken from the cart,
 the order row that is inserted, how an insert error or a thrown error is
 reported, and the default payment method.  The insert itself is a
 parameter: its outcome comes in as an `InsertOutcome`.
 */
module Checkout {
  import opened Strings
  import opened Catalog
  import Cart

  /** The eight customer and shipping fields, as typed. */
  datatype Details = Details(
    fullName: string,
    email: string,
    phone: string,
    address: string,
    city: string,
    state: string,
    zipCode: string,
    country: string)

  /** `isDetailsValid`: each field is non-empty once trimmed, i.e. none of them is blank. */
  function IsDetailsValid(d: Details): (r: bool)
    ensures r <==> && !IsBlank(d.fullName) && !IsBlank(d.email) && !IsBlank(d.phone)
                   && !IsBlank(d.address) && !IsBlank(d.city) && !IsBlank(d.state)
                   && !IsBlank(d.zipCode) && !IsBlank(d.country)
  {
    HasText(d.fullName) && HasText(d.email) && HasText(d.phone) && HasText(d.address)
    && HasText(d.city) && HasText(d.state) && HasText(d.zipCode) && HasText(d.country)
  }

  datatype Step = DetailsStep | PaymentStep | Confirmation

  /** `handleProceedToPayment`: to the payment step with valid details, otherwise no change. */
  function Proceed(step: Step, d: Details): (r: Step)
    ensures IsDetailsValid(d) ==> r == PaymentStep
    ensures !IsDetailsValid(d) ==> r == step
  {
    if IsDetailsValid(d) then PaymentStep else step
  }

  /** The back button of the payment step. */
  function Back(step: Step): (r: Step)
    ensures step == PaymentStep ==> r == DetailsStep
  {
    DetailsStep
  }

  /** One line of `order_items`, frozen at the time of the order. */
  datatype OrderItem = OrderItem(
    productId: string,
    productName: string,
    variationId: Option<string>,
    variationName: Option<string>,
    quantity: int,
    price: int,
    total: int,
    purity: int)

  /** `s || null` on an optional string: absent and empty both become null. */
  function NullIfEmpty(s: Option<string>): (r: Option<string>)
    ensures r.None? <==> s.None? || s.value == ""
    ensures r.Some? ==> r == s
  {
    if s.Some? && s.value != "" then s else None
  }

  function VariationId(v: Option<Variation>): Option<string> {
    if v.Some? then Some(v.value.id) else None
  }

  function VariationName(v: Option<Variation>): Option<string> {
    if v.Some? then Some(v.value.name) else None
  }

  /** One cart line as an order item: the product's id, name and purity, the
      size's id and name (`null` when there is no size or the field is empty),
      and the line's quantity, stored price and total. */
  function ItemOf(line: CartLine): (r: OrderItem)
    ensures r.productId == line.product.id && r.productName == line.product.name
    ensures r.purity == line.product.purity
    ensures r.quantity == line.quantity && r.price == line.price
    ensures r.total == Cart.LineTotal(line)
    ensures line.variation.None? ==> r.variationId.None? && r.variationName.None?
    ensures line.variation.Some? ==>
              && r.variationId == NullIfEmpty(Some(line.variation.value.id))
              && r.variationName == NullIfEmpty(Some(line.variation.value.name))
  {
    OrderItem(
      line.product.id,
      line.product.name,
      NullIfEmpty(VariationId(line.variation)),
      NullIfEmpty(VariationName(line.variation)),
      line.quantity,
      line.price,
      line.price * line.quantity,
      line.product.purity)
  }

  /** `orderItems`: one item per cart line, in cart order, each carrying its line's stored price and total. */
  function Snapshot(lines: seq<CartLine>): (r: seq<OrderItem>)
    ensures |r| == |lines|
    ensures forall i :: 0 <= i < |lines| ==>
              && r[i].productId == lines[i].product.id
              && r[i].productName == lines[i].product.name
              && r[i].purity == lines[i].product.purity
              && r[i].quantity == lines[i].quantity
              && r[i].price == lines[i].price
              && r[i].total == Cart.LineTotal(lines[i])
    ensures forall i :: 0 <= i < |lines| && lines[i].variation.None? ==>
              r[i].variationId.None? && r[i].variationName.None?
    ensures forall i :: 0 <= i < |lines| && lines[i].variation.Some? ==>
              && r[i].variationId == NullIfEmpty(Some(lines[i].variation.value.id))
              && r[i].variationName == NullIfEmpty(Some(lines[i].variation.value.name))
  {
    if |lines| == 0 then [] else Snapshot(lines[..|lines| - 1]) + [ItemOf(lines[|lines| - 1])]
  }

  function ItemsTotal(items: seq<OrderItem>): int {
    if |items| == 0 then 0 else ItemsTotal(items[..|items| - 1]) + items[|items| - 1].total
  }

  /** The snapshot's totals add up to the cart page's displayed line totals. */
  lemma {:induction false} SnapshotTotalIsLinesTotal(lines: seq<CartLine>)
    ensures ItemsTotal(Snapshot(lines)) == Cart.LinesTotal(lines)
    decreases |lines|
  {
    if |lines| > 0 {
      var init := lines[..|lines| - 1];
      SnapshotTotalIsLinesTotal(init);
      var s := Snapshot(lines);
      assert s[..|s| - 1] == Snapshot(init);
    }
  }

  datatype PaymentMethod = PaymentMethod(id: string, name: string, accountNumber: string)

  /** `paymentMethods.find(pm => pm.id === selected)`. */
  function FindMethod(methods: seq<PaymentMethod>, selected: string): (r: Option<PaymentMethod>)
    ensures r.Some? ==> r.value in methods && r.value.id == selected
    ensures r.None? ==> forall i :: 0 <= i < |methods| ==> methods[i].id != selected
    ensures r.Some? ==> exists i :: 0 <= i < |methods| && methods[i] == r.value
                          && forall j :: 0 <= j < i ==> methods[j].id != selected
  {
    if |methods| == 0 then None
    else if methods[0].id == selected then Some(methods[0])
    else
      var r := FindMethod(methods[1..], selected);
      if r.Some? then
        ghost var i :| 0 <= i < |methods[1..]| && methods[1..][i] == r.value
                       && forall j :: 0 <= j < i ==> methods[1..][j].id != selected;
        assert methods[i + 1] == r.value;
        r
      else r
  }

  /** The effect that preselects a method: the first listed one, once methods exist and none is selected. */
  function DefaultPaymentMethod(methods: seq<PaymentMethod>, selected: string): (r: string)
    ensures |methods| > 0 && selected == "" ==> r == methods[0].id
    ensures |methods| == 0 || selected != "" ==> r == selected
  {
    if |methods| > 0 && selected == "" then methods[0].id else selected
  }

  /** The row inserted into `orders`. */
  datatype Order = Order(
    details: Details,
    items: seq<OrderItem>,
    totalPrice: int,
    paymentMethodId: Option<string>,
    paymentMethodName: Option<string>,
    notes: Option<string>,
    orderStatus: string,
    paymentStatus: string)

  /** The insert payload: fields as typed (untrimmed), the snapshot, the cart total, the found method, trimmed notes, and the initial statuses. */
  function BuildOrder(d: Details, lines: seq<CartLine>, cartTotal: int,
                      methods: seq<PaymentMethod>, selected: string, notes: string): (r: Order)
    ensures r.details == d
    ensures r.items == Snapshot(lines)
    ensures r.totalPrice == cartTotal
    ensures r.orderStatus == "new" && r.paymentStatus == "pending"
    ensures r.notes.None? <==> IsBlank(notes)
    ensures r.notes.Some? ==> r.notes.value == Trim(notes)
    ensures r.paymentMethodId.Some? ==> r.paymentMethodId.value == selected
    ensures FindMethod(methods, selected).None? ==> r.paymentMethodId.None? && r.paymentMethodName.None?
    ensures var m := FindMethod(methods, selected);
            m.Some? ==>
              && r.paymentMethodId == NullIfEmpty(Some(m.value.id))
              && r.paymentMethodName == NullIfEmpty(Some(m.value.name))
  {
    var m := FindMethod(methods, selected);
    var trimmed := Trim(notes);
    Order(
      d,
      Snapshot(lines),
      cartTotal,
      NullIfEmpty(if m.Some? then Some(m.value.id) else None),
      NullIfEmpty(if m.Some? then Some(m.value.name) else None),
      if trimmed == "" then None else Some(trimmed),
      "new",
      "pending")
  }

  /** When the cart total is the sum of its lines, the stored total is the sum of the stored item totals. */
  lemma OrderTotalMatchesItems(d: Details, lines: seq<CartLine>, cartTotal: int,
                               methods: seq<PaymentMethod>, selected: string, notes: string)
    requires cartTotal == Cart.LinesTotal(lines)
    ensures var o := BuildOrder(d, lines, cartTotal, methods, selected, notes);
            o.totalPrice == ItemsTotal(o.items)
  {
    SnapshotTotalIsLinesTotal(lines);
  }

  /** What the insert call came back with. */
  datatype InsertOutcome =
    | Inserted(orderId: string)
    | InsertError(message: string)
    /** An exception: `isError` says whether it was an `Error` carrying `message`. */
    | Thrown(isError: bool, message: string)

  const MissingTableMessage: string :=
    "The orders table doesn't exist in the database. Please run the migration: supabase/migrations/20250117000000_ensure_orders_table.sql in your Supabase SQL Editor."

  /** An insert error that says the table is missing is replaced by the migration hint; any other is shown as it is. */
  function InsertErrorText(message: string): (r: string)
    ensures r == MissingTableMessage <==>
              || Contains(message, "Could not find the table")
              || Contains(message, "relation \"public.orders\" does not exist")
              || Contains(message, "schema cache")
              || message == MissingTableMessage
    ensures r != MissingTableMessage ==> r == message
  {
    if || Contains(message, "Could not find the table")
       || Contains(message, "relation \"public.orders\" does not exist")
       || Contains(message, "schema cache")
    then MissingTableMessage
    else message
  }

  /** The step after "Place Order" and the alert, if one was raised. */
  datatype PlaceResult = PlaceResult(step: Step, alert: Option<string>)

  /** `handlePlaceOrder`: confirmation only after a successful insert; any failure alerts and leaves the step alone. */
  function PlaceOrder(step: Step, outcome: InsertOutcome): (r: PlaceResult)
    ensures r.step == Confirmation <==> outcome.Inserted? || step == Confirmation
    ensures outcome.Inserted? <==> r.alert.None?
    ensures !outcome.Inserted? ==> r.step == step
    ensures outcome.InsertError? ==>
              r.alert == Some("Failed to save order: " + InsertErrorText(outcome.message)
                              + "\n\nPlease contact support if this issue persists.")
    ensures outcome.Thrown? ==>
              r.alert == Some("Failed to place order: "
                              + (if outcome.isError then outcome.message else "Unknown error")
                              + ". Please try again.")
  {
    match outcome
    case Inserted(_) => PlaceResult(Confirmation, None)
    case InsertError(msg) =>
      PlaceResult(step, Some("Failed to save order: " + InsertErrorText(msg)
                             + "\n\nPlease contact support if this issue persists."))
    case Thrown(isError, msg) =>
      PlaceResult(step, Some("Failed to place order: " + (if isError then msg else "Unknown error")
                             + ". Please try again."))
  }

  /** Payment is reached from details only with valid details, and confirmation only through a successful insert. */
  lemma StepMachine(d: Details, outcome: InsertOutcome)
    ensures Proceed(DetailsStep, d) == PaymentStep <==> IsDetailsValid(d)
    ensures PlaceOrder(PaymentStep, outcome).step == Confirmation <==> outcome.Inserted?
    ensures Back(Proceed(DetailsStep, d)) == DetailsStep
  {
  }
}
