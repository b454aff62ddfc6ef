/**
 The product card of the storefront grid: which size is selected, the
 unit price shown, the stock the quantity stepper is capped by, and what
 "Add to Cart" does with the chosen quantity.
 */
module MenuItemCard {
  import opened Catalog

  /** The card opens on the first variation, or on none when the product has no variations. */
  function InitialSelection(p: Product): (r: Option<Variation>)
    ensures r.None? <==> !HasVariations(p)
    ensures r.Some? ==> r.value == p.variations[0]
  {
    if HasVariations(p) then Some(p.variations[0]) else None
  }

  /**
   The card's unit price.  A selected variation's `price` is used as it is,
   whatever either discount says; without a selection the product-level
   discount applies when it is active and non-zero.
   */
  function CurrentPrice(p: Product, selected: Option<Variation>): (r: int)
    ensures selected.Some? ==> r == selected.value.price
    ensures selected.None? && DiscountApplies(p) ==> r == p.discountPrice.value
    ensures selected.None? && !DiscountApplies(p) ==> r == p.basePrice
  {
    match selected
    case Some(v) => v.price
    case None => ProductPrice(p)
  }

  /** The discount badge shows only without a selection and with an active, non-zero product discount. */
  predicate HasDiscount(p: Product, selected: Option<Variation>) {
    selected.None? && DiscountApplies(p)
  }

  /** Discount fields, of the variation or of the product, never move the card's price once a variation is selected. */
  lemma PriceIgnoresDiscountFields(p: Product, v: Variation, vd: Option<int>, va: bool, pd: Option<int>, pa: bool)
    ensures CurrentPrice(p.(discountPrice := pd, discountActive := pa), Some(v.(discountPrice := vd, discountActive := va)))
            == CurrentPrice(p, Some(v)) == v.price
  {
  }

  /** When the badge shows, the displayed price is the product's discount price and the struck-through one its base price. */
  lemma BadgeMeansDiscountedPrice(p: Product, selected: Option<Variation>)
    requires HasDiscount(p, selected)
    ensures CurrentPrice(p, selected) == p.discountPrice.value != 0
  {
  }

  /** The outcome of one press of the plus button. */
  datatype Step = Step(quantity: int, alerted: bool)

  /** Plus: one more unless the quantity already reaches the available stock, in which case the user is alerted. */
  function Increment(q: int, stock: int): (r: Step)
    ensures r.alerted <==> q >= stock
    ensures !r.alerted ==> r.quantity == q + 1 && r.quantity <= stock
    ensures r.alerted ==> r.quantity == q
  {
    if q >= stock then Step(q, true) else Step(q + 1, false)
  }

  function IncrementTimes(q: int, stock: int, n: nat): int {
    if n == 0 then q else Increment(IncrementTimes(q, stock, n - 1), stock).quantity
  }

  /** Pressing plus `n` times from a quantity within stock lands on `min(q + n, stock)`: the stepper never passes the stock. */
  lemma {:induction false} IncrementTimesCapped(q: int, stock: int, n: nat)
    requires q <= stock
    ensures IncrementTimes(q, stock, n) == if q + n <= stock then q + n else stock
  {
    if n > 0 {
      IncrementTimesCapped(q, stock, n - 1);
    }
  }

  /** The plus button is disabled exactly when a press would be refused. */
  predicate IncrementDisabled(q: int, stock: int) {
    q >= stock
  }

  /** A disabled plus is exactly a press that would only alert; an enabled one adds one. */
  lemma IncrementDisabledIffRefused(q: int, stock: int)
    ensures IncrementDisabled(q, stock) <==> Increment(q, stock).alerted
    ensures !IncrementDisabled(q, stock) ==> Increment(q, stock).quantity == q + 1
  {
  }

  /** The size buttons ignore a click on a variation whose stock is exactly zero. */
  function SelectVariation(current: Option<Variation>, v: Variation): (r: Option<Variation>)
    ensures v.stock == 0 ==> r == current
    ensures v.stock != 0 ==> r == Some(v)
  {
    if v.stock == 0 then current else Some(v)
  }

  /** Starting from the initial selection, clicks on the product's own size buttons keep the selection one of its variations. */
  lemma SelectionStaysAmongVariations(p: Product, current: Option<Variation>, v: Variation)
    requires current.Some? ==> current.value in p.variations
    requires v in p.variations
    ensures var r := SelectVariation(current, v); r.Some? ==> r.value in p.variations
  {
  }

  /** What the card asks the cart to add. */
  datatype AddRequest = AddRequest(product: Product, variation: Option<Variation>, quantity: int)

  /** Either the quantity was cut back to the stock and nothing was added, or the request went out and the stepper reset to 1. */
  datatype AddOutcome =
    | Clamped(quantity: int)
    | Added(request: AddRequest, quantity: int)

  /** "Add to Cart" on the card. */
  function AddToCart(p: Product, selected: Option<Variation>, q: int): (r: AddOutcome)
    ensures r.Clamped? <==> q > AvailableStock(p, selected)
    ensures r.Clamped? ==> r.quantity == AvailableStock(p, selected)
    ensures r.Added? ==> r.request == AddRequest(p, selected, q) && r.quantity == 1
    ensures r.Added? ==> r.request.quantity <= AvailableStock(p, selected)
  {
    if q > AvailableStock(p, selected) then Clamped(AvailableStock(p, selected))
    else Added(AddRequest(p, selected, q), 1)
  }

  /** The add button is disabled when nothing is in stock anywhere, the selection has no stock, or the quantity is 0. */
  predicate AddDisabled(p: Product, selected: Option<Variation>, q: int) {
    !HasAnyStock(p) || AvailableStock(p, selected) == 0 || q == 0
  }

  /** An enabled add button with a quantity within the selection's stock always
      sends the request; a disabled one is never pressed, and when the
      selection has no stock any positive quantity would be clamped. */
  lemma EnabledAddWithinStockAdds(p: Product, selected: Option<Variation>, q: int)
    ensures !AddDisabled(p, selected, q) && q <= AvailableStock(p, selected) ==>
              AddToCart(p, selected, q) == Added(AddRequest(p, selected, q), 1)
    ensures AvailableStock(p, selected) == 0 && q > 0 ==>
              AddDisabled(p, selected, q) && AddToCart(p, selected, q) == Clamped(0)
  {
  }

  /** A quantity reached by the steppers from 1 never trips the clamp: an enabled add always adds. */
  lemma {:induction false} SteppedQuantityIsAdded(p: Product, selected: Option<Variation>, ups: nat, downs: nat)
    requires 1 <= AvailableStock(p, selected)
    ensures var q := DecrementTimes(IncrementTimes(1, AvailableStock(p, selected), ups), downs);
            AddToCart(p, selected, q).Added?
  {
    var stock := AvailableStock(p, selected);
    IncrementTimesCapped(1, stock, ups);
    var up := IncrementTimes(1, stock, ups);
    DecrementTimesFloor(up, downs);
  }
}
