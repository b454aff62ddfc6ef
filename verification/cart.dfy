/**
 The cart page: the stock each line may grow to, the update requests its
 plus and minus buttons send, the line totals, the item count of the
 summary and the displayed total.  The cart itself (how `updateQuantity`
 and `getTotalPrice` work) is not part of this model: the requests are
 the output, and the cart total comes in as a parameter.
 */
module Cart {
  import opened Catalog

  /** A line's available stock: its variation's if it has one, else its product's. */
  function LineStock(line: CartLine): (r: int)
    ensures line.variation.Some? ==> r == line.variation.value.stock
    ensures line.variation.None? ==> r == line.product.stock
  {
    AvailableStock(line.product, line.variation)
  }

  /** `updateQuantity(index, quantity)` as sent to the cart. */
  datatype UpdateRequest = UpdateRequest(index: int, quantity: int)

  /** Plus on line `index`: a request for one more while below stock, otherwise no request (an alert). */
  function IncrementRequest(lines: seq<CartLine>, index: int): (r: Option<UpdateRequest>)
    requires 0 <= index < |lines|
    ensures r.Some? <==> lines[index].quantity < LineStock(lines[index])
    ensures r.Some? ==> r.value.index == index && r.value.quantity == lines[index].quantity + 1
    ensures r.Some? ==> r.value.quantity <= LineStock(lines[index])
  {
    var line := lines[index];
    if line.quantity >= LineStock(line) then None
    else Some(UpdateRequest(index, line.quantity + 1))
  }

  /** The plus button is disabled iff the line already holds its stock. */
  predicate IncrementDisabled(line: CartLine) {
    line.quantity >= LineStock(line)
  }

  /** The plus button is disabled exactly when a press would send nothing. */
  lemma DisabledIffNoRequest(lines: seq<CartLine>, index: int)
    requires 0 <= index < |lines|
    ensures IncrementDisabled(lines[index]) <==> IncrementRequest(lines, index).None?
  {
  }

  /** Minus on line `index` always asks for one less; this page applies no floor (a line at 1 asks for 0). */
  function DecrementRequest(lines: seq<CartLine>, index: int): (r: UpdateRequest)
    requires 0 <= index < |lines|
    ensures r.index == index && r.quantity < lines[index].quantity
    ensures r.quantity == lines[index].quantity - 1
  {
    UpdateRequest(index, lines[index].quantity - 1)
  }

  /** A line's total uses the price stored on the line, not the product's current price. */
  function LineTotal(line: CartLine): (r: int)
    ensures line.quantity == 1 ==> r == line.price
    ensures line.quantity == 0 ==> r == 0
  {
    line.price * line.quantity
  }

  /** A line's total does not follow later changes to the product or its variation: only the stored price counts. */
  lemma LineTotalIgnoresCatalog(line: CartLine, p: Product, v: Option<Variation>)
    ensures LineTotal(line.(product := p, variation := v)) == LineTotal(line)
  {
  }

  /** A line of `q` items costs its stored price added up `q` times, so one
      more item adds exactly one stored price. */
  lemma LineTotalIsRepeatedPrice(line: CartLine)
    requires line.quantity >= 0
    ensures LineTotal(line) == Repeated(line.price, line.quantity)
    ensures LineTotal(line.(quantity := line.quantity + 1)) == LineTotal(line) + line.price
  {
    RepeatedIsProduct(line.price, line.quantity);
    RepeatedIsProduct(line.price, line.quantity + 1);
  }

  /** The summary's item count, `reduce((sum, item) => sum + item.quantity, 0)`. */
  function ItemCount(lines: seq<CartLine>): int {
    if |lines| == 0 then 0 else ItemCount(lines[..|lines| - 1]) + lines[|lines| - 1].quantity
  }

  /** The sum of the displayed line totals. */
  function LinesTotal(lines: seq<CartLine>): int {
    if |lines| == 0 then 0 else LinesTotal(lines[..|lines| - 1]) + LineTotal(lines[|lines| - 1])
  }

  lemma {:induction false} ItemCountAppend(a: seq<CartLine>, b: seq<CartLine>)
    ensures ItemCount(a + b) == ItemCount(a) + ItemCount(b)
    decreases |b|
  {
    if |b| > 0 {
      assert (a + b)[..|a + b| - 1] == a + b[..|b| - 1];
      ItemCountAppend(a, b[..|b| - 1]);
    } else {
      assert a + b == a;
    }
  }

  lemma {:induction false} LinesTotalAppend(a: seq<CartLine>, b: seq<CartLine>)
    ensures LinesTotal(a + b) == LinesTotal(a) + LinesTotal(b)
    decreases |b|
  {
    if |b| > 0 {
      assert (a + b)[..|a + b| - 1] == a + b[..|b| - 1];
      LinesTotalAppend(a, b[..|b| - 1]);
    } else {
      assert a + b == a;
    }
  }

  /** Every line holds at least one item, so the count is at least the number of lines. */
  lemma {:induction false} ItemCountAtLeastLines(lines: seq<CartLine>)
    requires forall i :: 0 <= i < |lines| ==> lines[i].quantity >= 1
    ensures ItemCount(lines) >= |lines|
    decreases |lines|
  {
    if |lines| > 0 {
      ItemCountAtLeastLines(lines[..|lines| - 1]);
    }
  }

  /** Moving a block of lines from the front to the back changes neither the count nor the total. */
  lemma RotationInvariant(a: seq<CartLine>, b: seq<CartLine>)
    ensures ItemCount(a + b) == ItemCount(b + a)
    ensures LinesTotal(a + b) == LinesTotal(b + a)
  {
    ItemCountAppend(a, b);
    ItemCountAppend(b, a);
    LinesTotalAppend(a, b);
    LinesTotalAppend(b, a);
  }

  /** The order summary: the item count, the subtotal and the total, which carries no shipping. */
  datatype Summary = Summary(itemCount: int, subtotal: int, finalTotal: int)

  function OrderSummary(lines: seq<CartLine>, cartTotal: int): (r: Summary)
    ensures r.finalTotal == r.subtotal == cartTotal
    ensures r.itemCount == ItemCount(lines)
  {
    Summary(ItemCount(lines), cartTotal, cartTotal)
  }
}
