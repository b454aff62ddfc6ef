/**
 The storefront's entities and the few rules several components share:
 the product-level price resolution, "any stock at all", the stock that a
 product/variation selection offers, the quantity floor of the minus
 buttons, and an order-preserving filter (`Array.prototype.filter`).

 Money, stock, purity and milligram amounts are `int`; a nullable column
 is an `Option`.
 */
module Catalog {

  datatype Option<T> = None | Some(value: T)

  /** A purchasable size of a product, with its own price and stock. */
  datatype Variation = Variation(
    id: string,
    productId: string,
    name: string,
    quantityMg: int,
    price: int,
    discountPrice: Option<int>,
    discountActive: bool,
    stock: int)

  datatype Product = Product(
    id: string,
    name: string,
    description: string,
    category: string,
    basePrice: int,
    discountPrice: Option<int>,
    discountActive: bool,
    purity: int,
    stock: int,
    available: bool,
    featured: bool,
    inclusions: Option<seq<string>>,
    imageUrl: Option<string>,
    variations: seq<Variation>)

  /** A cart line: the product, the chosen size if any, how many, and the unit price stored when it was added. */
  datatype CartLine = CartLine(product: Product, variation: Option<Variation>, quantity: int, price: int)

  /** `product.variations && product.variations.length > 0` */
  predicate HasVariations(p: Product) {
    |p.variations| > 0
  }

  /** `discount_active && discount_price`: a null or zero discount price is falsy and does not apply. */
  predicate DiscountApplies(p: Product) {
    p.discountActive && p.discountPrice.Some? && p.discountPrice.value != 0
  }

  /** The product-level unit price: the discount price when it applies, otherwise the base price. */
  function ProductPrice(p: Product): (r: int)
    ensures DiscountApplies(p) ==> r == p.discountPrice.value
    ensures !DiscountApplies(p) ==> r == p.basePrice
    ensures r != p.basePrice ==> p.discountActive
    ensures p.basePrice != 0 ==> r != 0
  {
    if DiscountApplies(p) then p.discountPrice.value else p.basePrice
  }

  /** Some variation has positive stock, or, with no variations, the product itself does. */
  predicate HasAnyStock(p: Product) {
    if HasVariations(p) then exists i :: 0 <= i < |p.variations| && p.variations[i].stock > 0
    else p.stock > 0
  }

  /** The stock a selection offers: the selected variation's, else the product's. */
  function AvailableStock(p: Product, selected: Option<Variation>): (r: int)
    ensures selected.Some? ==> r == selected.value.stock
    ensures selected.None? ==> r == p.stock
  {
    match selected
    case Some(v) => v.stock
    case None => p.stock
  }

  /** `n` copies of a price added up: what a quantity of `n` of one line or
      one selection costs, independently of multiplication. */
  function Repeated(price: int, n: nat): int {
    if n == 0 then 0 else Repeated(price, n - 1) + price
  }

  /** Adding a price up `n` times is multiplying it by `n`. */
  lemma {:induction false} RepeatedIsProduct(price: int, n: nat)
    ensures Repeated(price, n) == price * n
  {
    if n > 0 {
      RepeatedIsProduct(price, n - 1);
    }
  }

  /** The minus button of the card and of the detail view: `prev > 1 ? prev - 1 : 1`. */
  function Decrement(q: int): (r: int)
    ensures r >= 1
    ensures r <= q || q < 1
    ensures q > 1 ==> r == q - 1
  {
    if q > 1 then q - 1 else 1
  }

  function DecrementTimes(q: int, n: nat): int {
    if n == 0 then q else Decrement(DecrementTimes(q, n - 1))
  }

  /** Pressing minus `n` times from a quantity of at least 1 lands on `max(1, q - n)`: it never passes below 1. */
  lemma {:induction false} DecrementTimesFloor(q: int, n: nat)
    requires q >= 1
    ensures DecrementTimes(q, n) == if q - n >= 1 then q - n else 1
  {
    if n > 0 {
      DecrementTimesFloor(q, n - 1);
    }
  }

  /** `xs.filter(keep)`: the elements satisfying `keep`, in their original order. */
  function FilterBy<T>(xs: seq<T>, keep: T -> bool): (r: seq<T>)
    ensures |r| <= |xs|
    ensures forall i :: 0 <= i < |r| ==> keep(r[i])
    ensures forall i :: 0 <= i < |xs| && keep(xs[i]) ==> xs[i] in r
    ensures forall x :: x in r ==> x in xs
  {
    if |xs| == 0 then []
    else if keep(xs[0]) then [xs[0]] + FilterBy(xs[1..], keep)
    else FilterBy(xs[1..], keep)
  }

  /** Filtering a concatenation filters each part. */
  lemma {:induction false} FilterAppend<T>(a: seq<T>, b: seq<T>, keep: T -> bool)
    ensures FilterBy(a + b, keep) == FilterBy(a, keep) + FilterBy(b, keep)
    decreases |a|
  {
    if |a| == 0 {
      assert a + b == b;
    } else {
      assert (a + b)[1..] == a[1..] + b;
      FilterAppend(a[1..], b, keep);
    }
  }

  /** A filter that keeps every element returns the sequence unchanged. */
  lemma {:induction false} FilterKeepsAll<T>(xs: seq<T>, keep: T -> bool)
    requires forall i :: 0 <= i < |xs| ==> keep(xs[i])
    ensures FilterBy(xs, keep) == xs
    decreases |xs|
  {
    if |xs| > 0 {
      FilterKeepsAll(xs[1..], keep);
      assert xs == [xs[0]] + xs[1..];
    }
  }

  /** A filter that keeps no element returns the empty sequence. */
  lemma {:induction false} FilterKeepsNone<T>(xs: seq<T>, keep: T -> bool)
    requires forall i :: 0 <= i < |xs| ==> !keep(xs[i])
    ensures FilterBy(xs, keep) == []
    decreases |xs|
  {
    if |xs| > 0 {
      FilterKeepsNone(xs[1..], keep);
    }
  }

  /** A filter returns nothing exactly when it keeps no element. */
  lemma FilterEmptyIff<T>(xs: seq<T>, keep: T -> bool)
    ensures FilterBy(xs, keep) == [] <==> forall i :: 0 <= i < |xs| ==> !keep(xs[i])
  {
    if forall i :: 0 <= i < |xs| ==> !keep(xs[i]) {
      FilterKeepsNone(xs, keep);
    }
  }

  /** `a` is `b` with some elements left out and the rest in their original order. */
  predicate IsSubsequence<T(==)>(a: seq<T>, b: seq<T>)
    decreases |b|
  {
    if |a| == 0 then true
    else if |b| == 0 then false
    else if a[0] == b[0] then IsSubsequence(a[1..], b[1..])
    else IsSubsequence(a, b[1..])
  }

  /** Every sequence is a subsequence of itself. */
  lemma {:induction false} SubsequenceReflexive<T>(a: seq<T>)
    ensures IsSubsequence(a, a)
    decreases |a|
  {
    if |a| > 0 {
      SubsequenceReflexive(a[1..]);
    }
  }

  lemma {:induction false} FilterIsSubsequence<T>(xs: seq<T>, keep: T -> bool)
    ensures IsSubsequence(FilterBy(xs, keep), xs)
  {
    if |xs| > 0 {
      FilterIsSubsequence(xs[1..], keep);
      if !keep(xs[0]) {
        SubsequenceOfTail(FilterBy(xs[1..], keep), xs);
      }
    }
  }

  /** A subsequence of `b[1..]` is a subsequence of `b`. */
  lemma {:induction false} SubsequenceOfTail<T>(a: seq<T>, b: seq<T>)
    requires |b| > 0 && IsSubsequence(a, b[1..])
    ensures IsSubsequence(a, b)
    decreases |b|, 0
  {
    if |a| > 0 && a[0] == b[0] {
      SubsequenceDropHead(a, b[1..]);
    }
  }

  /** Leaving out the first element of a subsequence keeps it a subsequence. */
  lemma {:induction false} SubsequenceDropHead<T>(a: seq<T>, c: seq<T>)
    requires |a| > 0 && IsSubsequence(a, c)
    ensures IsSubsequence(a[1..], c)
    decreases |c|, 1
  {
    assert |c| > 0;
    if a[0] == c[0] {
      SubsequenceOfTail(a[1..], c);
    } else {
      SubsequenceDropHead(a, c[1..]);
      SubsequenceOfTail(a[1..], c);
    }
  }

  /** A subsequence of a subsequence is a subsequence. */
  lemma {:induction false} SubsequenceTransitive<T>(a: seq<T>, b: seq<T>, c: seq<T>)
    requires IsSubsequence(a, b) && IsSubsequence(b, c)
    ensures IsSubsequence(a, c)
    decreases |c|
  {
    if |a| > 0 {
      assert |b| > 0 && |c| > 0;
      if b[0] == c[0] {
        if a[0] == b[0] {
          SubsequenceTransitive(a[1..], b[1..], c[1..]);
        } else {
          SubsequenceTransitive(a, b[1..], c[1..]);
          SubsequenceOfTail(a, c);
        }
      } else {
        SubsequenceTransitive(a, b, c[1..]);
        SubsequenceOfTail(a, c);
      }
    }
  }
}
