/**
 The storefront grid: the case-insensitive search filter, the sort by
 name, price or purity, and the per-product "in cart" count shown on each
 card.
 */
module Menu {
  import opened Strings
  import opened Catalog
  import Cart

  /** The lower-cased query occurs in the lower-cased name or description. */
  predicate Matches(p: Product, query: string) {
    || Contains(ToLower(p.name), ToLower(query))
    || Contains(ToLower(p.description), ToLower(query))
  }

  /** `filteredProducts`: exactly the matching products, in catalogue order. */
  function FilteredProducts(items: seq<Product>, query: string): (r: seq<Product>)
    ensures forall i :: 0 <= i < |r| ==> Matches(r[i], query)
    ensures forall i :: 0 <= i < |items| && Matches(items[i], query) ==> items[i] in r
    ensures IsSubsequence(r, items)
  {
    FilterIsSubsequence(items, p => Matches(p, query));
    FilterBy(items, p => Matches(p, query))
  }

  /** An empty search keeps every product, in order. */
  lemma {:induction false} EmptyQueryKeepsAll(items: seq<Product>)
    ensures FilteredProducts(items, "") == items
  {
    if |items| > 0 {
      ContainsEmpty(ToLower(items[0].name));
      EmptyQueryKeepsAll(items[1..]);
      assert items == [items[0]] + items[1..];
    }
  }

  /** Upper and lower case in the query make no difference. */
  lemma QueryCaseInsensitive(p: Product, query: string)
    ensures Matches(p, query) <==> Matches(p, ToLower(query))
  {
    ToLowerIdempotent(query);
  }

  datatype SortKey = ByName | ByPrice | ByPurity

  /** Code-point lexicographic order on names, standing in for `localeCompare`. */
  predicate NameLe(a: string, b: string)
    decreases |a|
  {
    if |a| == 0 then true
    else if |b| == 0 then false
    else if a[0] != b[0] then a[0] < b[0]
    else NameLe(a[1..], b[1..])
  }

  lemma {:induction false} NameLeTotal(a: string, b: string)
    ensures NameLe(a, b) || NameLe(b, a)
    decreases |a|
  {
    if |a| > 0 && |b| > 0 && a[0] == b[0] {
      NameLeTotal(a[1..], b[1..]);
    }
  }

  lemma {:induction false} NameLeTransitive(a: string, b: string, c: string)
    requires NameLe(a, b) && NameLe(b, c)
    ensures NameLe(a, c)
    decreases |a|
  {
    if |a| > 0 && |b| > 0 && |c| > 0 && a[0] == b[0] && b[0] == c[0] {
      NameLeTransitive(a[1..], b[1..], c[1..]);
    }
  }

  /**
   The comparator's "not after": `a` may precede `b`.  Price is ascending
   by base price, purity descending, name by code points.
   */
  predicate Le(key: SortKey, a: Product, b: Product) {
    match key
    case ByName => NameLe(a.name, b.name)
    case ByPrice => a.basePrice - b.basePrice <= 0
    case ByPurity => b.purity - a.purity <= 0
  }

  lemma LeTotal(key: SortKey, a: Product, b: Product)
    ensures Le(key, a, b) || Le(key, b, a)
  {
    if key == ByName {
      NameLeTotal(a.name, b.name);
    }
  }

  lemma LeTransitive(key: SortKey, a: Product, b: Product, c: Product)
    requires Le(key, a, b) && Le(key, b, c)
    ensures Le(key, a, c)
  {
    if key == ByName {
      NameLeTransitive(a.name, b.name, c.name);
    }
  }

  predicate Sorted(key: SortKey, s: seq<Product>) {
    forall i, j :: 0 <= i < j < |s| ==> Le(key, s[i], s[j])
  }

  /** An element that may precede the head of a sorted list may precede all of it. */
  lemma PrecedesSorted(key: SortKey, x: Product, s: seq<Product>)
    requires Sorted(key, s) && |s| > 0 && Le(key, x, s[0])
    ensures forall j :: 0 <= j < |s| ==> Le(key, x, s[j])
  {
    forall j | 0 < j < |s| ensures Le(key, x, s[j]) {
      LeTransitive(key, x, s[0], s[j]);
    }
  }

  /** The head of a sorted list may precede every element of the rest with one more element inserted. */
  lemma HeadPrecedesInserted(key: SortKey, x: Product, s: seq<Product>, rest: seq<Product>)
    requires Sorted(key, s) && |s| > 0 && Le(key, s[0], x)
    requires multiset(rest) == multiset(s[1..]) + multiset{x}
    ensures forall j :: 0 <= j < |rest| ==> Le(key, s[0], rest[j])
  {
    forall j | 0 <= j < |rest| ensures Le(key, s[0], rest[j]) {
      assert rest[j] in multiset(rest);
      if rest[j] != x {
        assert rest[j] in multiset(s[1..]);
        var k :| 0 <= k < |s[1..]| && s[1..][k] == rest[j];
        assert s[k + 1] == rest[j];
      }
    }
  }

  /** Inserts `x` before the first element it may precede. */
  function Insert(key: SortKey, x: Product, s: seq<Product>): (r: seq<Product>)
    requires Sorted(key, s)
    ensures multiset(r) == multiset(s) + multiset{x}
    ensures Sorted(key, r)
  {
    if |s| == 0 then [x]
    else if Le(key, x, s[0]) then
      PrecedesSorted(key, x, s);
      [x] + s
    else
      LeTotal(key, x, s[0]);
      var rest := Insert(key, x, s[1..]);
      assert s == [s[0]] + s[1..];
      HeadPrecedesInserted(key, x, s, rest);
      [s[0]] + rest
  }

  /** `sortedProducts`: a sorted permutation of the filtered list. */
  function SortedProducts(key: SortKey, s: seq<Product>): (r: seq<Product>)
    ensures multiset(r) == multiset(s)
    ensures |r| == |s|
    ensures Sorted(key, r)
  {
    if |s| == 0 then []
    else
      assert s == [s[0]] + s[1..];
      Insert(key, s[0], SortedProducts(key, s[1..]))
  }

  /** The grid shows the sorted permutation of exactly the matching products. */
  lemma GridIsSortedMatches(items: seq<Product>, query: string, key: SortKey)
    ensures var grid := SortedProducts(key, FilteredProducts(items, query));
            && Sorted(key, grid)
            && (forall i :: 0 <= i < |grid| ==> Matches(grid[i], query))
            && (forall i :: 0 <= i < |items| && Matches(items[i], query) ==> items[i] in grid)
  {
    var f := FilteredProducts(items, query);
    var grid := SortedProducts(key, f);
    forall i | 0 <= i < |grid| ensures Matches(grid[i], query) {
      assert grid[i] in multiset(f);
    }
    forall i | 0 <= i < |items| && Matches(items[i], query) ensures items[i] in grid {
      assert items[i] in multiset(grid);
    }
  }

  /** A line counts toward `getCartQuantity(productId, variationId)`: same product, and the same size, or no size when none is asked for. */
  predicate LineCounts(line: CartLine, productId: string, variationId: Option<string>) {
    && line.product.id == productId
    && if variationId.Some? && variationId.value != "" then
         line.variation.Some? && line.variation.value.id == variationId.value
       else line.variation.None?
  }

  /** `getCartQuantity`: the quantities of the counted lines, summed. */
  function CartQuantity(lines: seq<CartLine>, productId: string, variationId: Option<string>): int {
    if |lines| == 0 then 0
    else
      var last := lines[|lines| - 1];
      CartQuantity(lines[..|lines| - 1], productId, variationId)
        + (if LineCounts(last, productId, variationId) then last.quantity else 0)
  }

  lemma {:induction false} CartQuantityAppend(a: seq<CartLine>, b: seq<CartLine>, productId: string, variationId: Option<string>)
    ensures CartQuantity(a + b, productId, variationId)
            == CartQuantity(a, productId, variationId) + CartQuantity(b, productId, variationId)
    decreases |b|
  {
    if |b| > 0 {
      assert (a + b)[..|a + b| - 1] == a + b[..|b| - 1];
      CartQuantityAppend(a, b[..|b| - 1], productId, variationId);
    } else {
      assert a + b == a;
    }
  }

  /** Lines that do not count contribute nothing, whatever their quantities. */
  lemma {:induction false} CartQuantityOfUncounted(lines: seq<CartLine>, productId: string, variationId: Option<string>)
    requires forall i :: 0 <= i < |lines| ==> !LineCounts(lines[i], productId, variationId)
    ensures CartQuantity(lines, productId, variationId) == 0
    decreases |lines|
  {
    if |lines| > 0 {
      CartQuantityOfUncounted(lines[..|lines| - 1], productId, variationId);
    }
  }

  /** The `filter` step of `getCartQuantity`, as a test on one line. */
  function Counted(productId: string, variationId: Option<string>): CartLine -> bool {
    line => LineCounts(line, productId, variationId)
  }

  /** The count is the cart page's item count of exactly the counted lines:
      `filter` then `reduce`. */
  lemma {:induction false} CartQuantityIsFilteredCount(lines: seq<CartLine>, productId: string, variationId: Option<string>)
    ensures CartQuantity(lines, productId, variationId) == Cart.ItemCount(FilterBy(lines, Counted(productId, variationId)))
    decreases |lines|
  {
    if |lines| > 0 {
      var init := lines[..|lines| - 1];
      var last := lines[|lines| - 1];
      var counted := Counted(productId, variationId);
      CartQuantityIsFilteredCount(init, productId, variationId);
      assert lines == init + [last];
      FilterAppend(init, [last], counted);
      assert [last][1..] == [];
      Cart.ItemCountAppend(FilterBy(init, counted), FilterBy([last], counted));
    }
  }

  /** The number a card shows: cards ask without a variation id. */
  function CardCartQuantity(lines: seq<CartLine>, productId: string): int {
    CartQuantity(lines, productId, None)
  }

  /** Adding lines that carry a size never changes a card's "in cart" count. */
  lemma CardCountIgnoresSizedLines(lines: seq<CartLine>, more: seq<CartLine>, productId: string)
    requires forall i :: 0 <= i < |more| ==> more[i].variation.Some?
    ensures CardCartQuantity(lines + more, productId) == CardCartQuantity(lines, productId)
  {
    CartQuantityAppend(lines, more, productId, None);
    CartQuantityOfUncounted(more, productId, None);
  }
}
