/**
 The product detail view: it opens on the first size in stock, prices a
 selection with a fallback to the product price when the size's price is
 0, lets the quantity grow without a stock cap, and disables "Add to Cart"
 when the selection has nothing to sell.
 */
module ProductDetailModal {
  import opened Catalog
  import MenuItemCard

  /** The index of the first variation with positive stock, if any. */
  function FirstInStock(vs: seq<Variation>): (r: Option<nat>)
    ensures r.Some? ==> r.value < |vs| && vs[r.value].stock > 0
    ensures r.Some? ==> forall j :: 0 <= j < r.value ==> vs[j].stock <= 0
    ensures r.None? ==> forall j :: 0 <= j < |vs| ==> vs[j].stock <= 0
  {
    if |vs| == 0 then None
    else if vs[0].stock > 0 then Some(0)
    else match FirstInStock(vs[1..])
      case None => None
      case Some(i) => Some(i + 1)
  }

  /** `getFirstAvailableVariation`: none without variations, else the first one in stock, else the first one. */
  function FirstAvailableVariation(vs: seq<Variation>): (r: Option<Variation>)
    ensures r.None? <==> |vs| == 0
    ensures r.Some? ==> r.value in vs
    ensures (exists i :: 0 <= i < |vs| && vs[i].stock > 0) ==>
              r.Some? && r.value.stock > 0
              && exists i :: 0 <= i < |vs| && vs[i] == r.value && forall j :: 0 <= j < i ==> vs[j].stock <= 0
    ensures |vs| > 0 && (forall j :: 0 <= j < |vs| ==> vs[j].stock <= 0) ==> r == Some(vs[0])
  {
    if |vs| == 0 then None
    else match FirstInStock(vs)
      case Some(i) => Some(vs[i])
      case None => Some(vs[0])
  }

  /**
   The detail view's unit price, `selectedVariation?.price || fallback`: a
   selected size whose price is 0 falls back to the product price.
   */
  function CurrentPrice(p: Product, selected: Option<Variation>): (r: int)
    ensures selected.Some? && selected.value.price != 0 ==> r == selected.value.price
    ensures selected.None? || selected.value.price == 0 ==> r == ProductPrice(p)
  {
    if selected.Some? && selected.value.price != 0 then selected.value.price else ProductPrice(p)
  }

  /** The sale badge and the struck-through base price depend only on the product, never on the selection. */
  predicate HasDiscount(p: Product) {
    DiscountApplies(p)
  }

  /** The "Save" amount shown with the badge. */
  function Saving(p: Product): (r: int)
    requires HasDiscount(p)
    ensures r == p.basePrice - CurrentPrice(p, None)
    ensures r > 0 <==> p.discountPrice.value < p.basePrice
  {
    p.basePrice - p.discountPrice.value
  }

  /** The two resolvers agree except on a selected size whose price is 0: the card then shows 0, this view the product price. */
  lemma CardAndDetailPrices(p: Product, selected: Option<Variation>)
    ensures selected.None? ==> CurrentPrice(p, selected) == MenuItemCard.CurrentPrice(p, selected)
    ensures selected.Some? && selected.value.price != 0 ==>
              CurrentPrice(p, selected) == MenuItemCard.CurrentPrice(p, selected)
    ensures selected.Some? && selected.value.price == 0 ==>
              MenuItemCard.CurrentPrice(p, selected) == 0 && CurrentPrice(p, selected) == ProductPrice(p)
  {
  }

  /** The plus button here has no stock cap; the minus button undoes it. */
  function Increment(q: int): (r: int)
    ensures r > q
    ensures q >= 1 ==> Decrement(r) == q
  {
    q + 1
  }

  /** The index of the first variation with the given id, as `find(v => v.id === id)`. */
  function FindById(vs: seq<Variation>, id: string): (r: Option<nat>)
    ensures r.Some? ==> r.value < |vs| && vs[r.value].id == id
    ensures r.Some? ==> forall j :: 0 <= j < r.value ==> vs[j].id != id
    ensures r.None? ==> forall j :: 0 <= j < |vs| ==> vs[j].id != id
  {
    if |vs| == 0 then None
    else if vs[0].id == id then Some(0)
    else match FindById(vs[1..], id)
      case None => None
      case Some(i) => Some(i + 1)
  }

  /** The size selector switches only to an existing variation with positive stock; otherwise the selection stays. */
  function SelectSize(p: Product, current: Option<Variation>, id: string): (r: Option<Variation>)
    ensures r == current || (r.Some? && r.value in p.variations && r.value.id == id && r.value.stock > 0)
    ensures (forall j :: 0 <= j < |p.variations| ==> p.variations[j].id != id) ==> r == current
  {
    match FindById(p.variations, id)
    case Some(i) => if p.variations[i].stock > 0 then Some(p.variations[i]) else current
    case None => current
  }

  /** The add button is disabled iff nothing is in stock anywhere, the selected size has stock 0, or there is no size and the product stock is 0. */
  predicate AddDisabled(p: Product, selected: Option<Variation>) {
    || !HasAnyStock(p)
    || (selected.Some? && selected.value.stock == 0)
    || (selected.None? && p.stock == 0)
  }

  /** The add button's label. */
  function AddLabel(p: Product, selected: Option<Variation>): (r: string)
    ensures r == "Out of Stock" <==> AddDisabled(p, selected)
    ensures r == "Add to Cart" <==> !AddDisabled(p, selected)
  {
    if AddDisabled(p, selected) then "Out of Stock" else "Add to Cart"
  }

  /** The total shown under the stepper. */
  function Total(p: Product, selected: Option<Variation>, q: int): (r: int)
    ensures q == 1 ==> r == CurrentPrice(p, selected)
    ensures q == 0 ==> r == 0
    ensures q >= 0 && CurrentPrice(p, selected) >= 0 ==> r >= 0
  {
    CurrentPrice(p, selected) * q
  }

  /** The total for `q` items is the current price added up `q` times, so
      each press of plus adds exactly one current price. */
  lemma TotalIsRepeatedPrice(p: Product, selected: Option<Variation>, q: int)
    requires q >= 0
    ensures Total(p, selected, q) == Repeated(CurrentPrice(p, selected), q)
    ensures Total(p, selected, Increment(q)) == Total(p, selected, q) + CurrentPrice(p, selected)
  {
    RepeatedIsProduct(CurrentPrice(p, selected), q);
    RepeatedIsProduct(CurrentPrice(p, selected), q + 1);
  }

  /** The view opens with the add button enabled whenever some variation is in stock. */
  lemma OpensEnabledWhenInStock(p: Product)
    requires HasVariations(p) && HasAnyStock(p)
    ensures !AddDisabled(p, FirstAvailableVariation(p.variations))
  {
  }

  /** A selection made by the opening rule or by the size selector offers stock, once any variation does. */
  lemma {:induction false} SelectorKeepsStockedSelection(p: Product, current: Option<Variation>, id: string)
    requires HasVariations(p) && HasAnyStock(p)
    requires current == FirstAvailableVariation(p.variations) || (current.Some? && current.value.stock > 0)
    ensures var r := SelectSize(p, current, id); r.Some? && r.value.stock > 0
  {
    OpensEnabledWhenInStock(p);
  }
}
