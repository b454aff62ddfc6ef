/**
 The inventory screen of the back office: which orders count as sales,
 the sales and vial totals, the inventory valuation, the low-stock count,
 and the chained category / search / stock filters of the product table.
 Loading orders and products is a parameter: the lists come in as values.
 */
module Inventory {
  import opened Strings
  import opened Catalog
  import Menu

  /** A sold item as stored in `order_items`; a missing, null or zero quantity reads as 0. */
  datatype SoldItem = SoldItem(quantity: Option<int>)

  /** `order_items` is a JSON column: a list, or something else. */
  datatype ItemsField = ItemList(items: seq<SoldItem>) | NotAList

  datatype SalesOrder = SalesOrder(
    totalPrice: int,
    shippingFee: Option<int>,
    items: ItemsField,
    orderStatus: string,
    paymentStatus: string)

  const SaleStatuses: set<string> := {"confirmed", "processing", "shipped", "delivered"}

  /** The order query's condition: a confirmed-or-later status and payment "paid". */
  predicate IsSale(o: SalesOrder) {
    o.orderStatus in SaleStatuses && o.paymentStatus == "paid"
  }

  /** The orders the sales figures are computed from, in the order they were stored. */
  function SalesOrders(all: seq<SalesOrder>): (r: seq<SalesOrder>)
    ensures forall i :: 0 <= i < |r| ==> IsSale(r[i])
    ensures forall i :: 0 <= i < |all| && IsSale(all[i]) ==> all[i] in r
    ensures IsSubsequence(r, all)
  {
    FilterIsSubsequence(all, IsSale);
    FilterBy(all, IsSale)
  }

  /** `Number(total_price) + (Number(shipping_fee) || 0)`. */
  function OrderTotal(o: SalesOrder): (r: int)
    ensures o.shippingFee.None? ==> r == o.totalPrice
    ensures o.shippingFee.Some? ==> r == o.totalPrice + o.shippingFee.value
  {
    o.totalPrice + (match o.shippingFee case None => 0 case Some(f) => f)
  }

  function TotalSales(orders: seq<SalesOrder>): int {
    if |orders| == 0 then 0 else TotalSales(orders[..|orders| - 1]) + OrderTotal(orders[|orders| - 1])
  }

  /** `item.quantity || 0`. */
  function ItemQuantity(item: SoldItem): (r: int)
    ensures item.quantity.Some? ==> r == item.quantity.value
    ensures item.quantity.None? ==> r == 0
  {
    match item.quantity case None => 0 case Some(q) => q
  }

  function ItemsQuantity(items: seq<SoldItem>): int {
    if |items| == 0 then 0 else ItemsQuantity(items[..|items| - 1]) + ItemQuantity(items[|items| - 1])
  }

  /** The vials of one order: the summed item quantities when the column is a list, else 0. */
  function VialsInOrder(o: SalesOrder): (r: int)
    ensures o.items.NotAList? ==> r == 0
    ensures o.items.ItemList? ==> r == ItemsQuantity(o.items.items)
  {
    match o.items
    case ItemList(items) => ItemsQuantity(items)
    case NotAList => 0
  }

  function TotalVials(orders: seq<SalesOrder>): int {
    if |orders| == 0 then 0 else TotalVials(orders[..|orders| - 1]) + VialsInOrder(orders[|orders| - 1])
  }

  function VariationsValue(vs: seq<Variation>): int {
    if |vs| == 0 then 0 else VariationsValue(vs[..|vs| - 1]) + vs[|vs| - 1].stock * vs[|vs| - 1].price
  }

  /** A product's stock value: its variations' `stock * price` when it has variations, otherwise its stock at the product-level price. */
  function ProductValue(p: Product): (r: int)
    ensures HasVariations(p) ==> r == VariationsValue(p.variations)
    ensures !HasVariations(p) ==> r == p.stock * ProductPrice(p)
  {
    if HasVariations(p) then VariationsValue(p.variations) else p.stock * ProductPrice(p)
  }

  function TotalInventoryValue(products: seq<Product>): int {
    if |products| == 0 then 0 else TotalInventoryValue(products[..|products| - 1]) + ProductValue(products[|products| - 1])
  }

  /** Total sales of two runs of orders add up. */
  lemma {:induction false} TotalSalesAppend(a: seq<SalesOrder>, b: seq<SalesOrder>)
    ensures TotalSales(a + b) == TotalSales(a) + TotalSales(b)
    decreases |b|
  {
    if |b| > 0 {
      assert (a + b)[..|a + b| - 1] == a + b[..|b| - 1];
      TotalSalesAppend(a, b[..|b| - 1]);
    } else {
      assert a + b == a;
    }
  }

  /** The vials of two runs of items add up. */
  lemma {:induction false} ItemsQuantityAppend(a: seq<SoldItem>, b: seq<SoldItem>)
    ensures ItemsQuantity(a + b) == ItemsQuantity(a) + ItemsQuantity(b)
    decreases |b|
  {
    if |b| > 0 {
      assert (a + b)[..|a + b| - 1] == a + b[..|b| - 1];
      ItemsQuantityAppend(a, b[..|b| - 1]);
    } else {
      assert a + b == a;
    }
  }

  /** Vials sold in two runs of orders add up. */
  lemma {:induction false} TotalVialsAppend(a: seq<SalesOrder>, b: seq<SalesOrder>)
    ensures TotalVials(a + b) == TotalVials(a) + TotalVials(b)
    decreases |b|
  {
    if |b| > 0 {
      assert (a + b)[..|a + b| - 1] == a + b[..|b| - 1];
      TotalVialsAppend(a, b[..|b| - 1]);
    } else {
      assert a + b == a;
    }
  }

  /** The inventory value of two runs of products adds up. */
  lemma {:induction false} TotalInventoryValueAppend(a: seq<Product>, b: seq<Product>)
    ensures TotalInventoryValue(a + b) == TotalInventoryValue(a) + TotalInventoryValue(b)
    decreases |b|
  {
    if |b| > 0 {
      assert (a + b)[..|a + b| - 1] == a + b[..|b| - 1];
      TotalInventoryValueAppend(a, b[..|b| - 1]);
    } else {
      assert a + b == a;
    }
  }

  /** Some stock, but fewer than 5. */
  predicate IsLow(stock: int) {
    0 < stock < 5
  }

  /** Low stock: some variation is low when there are variations, otherwise the product is. */
  predicate IsLowStock(p: Product) {
    if HasVariations(p) then exists i :: 0 <= i < |p.variations| && IsLow(p.variations[i].stock)
    else IsLow(p.stock)
  }

  function LowStockCount(products: seq<Product>): int {
    if |products| == 0 then 0
    else LowStockCount(products[..|products| - 1]) + (if IsLowStock(products[|products| - 1]) then 1 else 0)
  }

  /** The count is the length of `products.filter(isLowStock)`. */
  lemma {:induction false} LowStockCountIsFilterLength(products: seq<Product>)
    ensures LowStockCount(products) == |FilterBy(products, IsLowStock)|
    decreases |products|
  {
    if |products| > 0 {
      var init := products[..|products| - 1];
      var last := products[|products| - 1];
      LowStockCountIsFilterLength(init);
      assert products == init + [last];
      FilterAppend(init, [last], IsLowStock);
      assert [last][1..] == [];
    }
  }

  /** With variations, the value depends on neither the product's own stock nor any discount field. */
  lemma ValueIgnoresProductFieldsWithVariations(p: Product, stock: int, dp: Option<int>, da: bool, base: int)
    requires HasVariations(p)
    ensures ProductValue(p.(stock := stock, discountPrice := dp, discountActive := da, basePrice := base))
            == ProductValue(p)
  {
  }

  /** A low-stock product always has some stock to sell. */
  lemma LowStockHasStock(p: Product)
    requires IsLowStock(p)
    ensures HasAnyStock(p)
  {
  }

  /** The five cards at the top of the screen. */
  datatype Stats = Stats(totalSales: int, totalVials: int, inventoryValue: int, totalItems: int, lowStock: int)

  /** `stats`, computed in one pass over the orders and one over the products. */
  method ComputeStats(orders: seq<SalesOrder>, products: seq<Product>) returns (stats: Stats)
    ensures stats.totalSales == TotalSales(orders)
    ensures stats.totalVials == TotalVials(orders)
    ensures stats.inventoryValue == TotalInventoryValue(products)
    ensures stats.totalItems == |products|
    ensures stats.lowStock == |FilterBy(products, IsLowStock)|
    ensures 0 <= stats.lowStock <= stats.totalItems
  {
    var sales, vials := 0, 0;
    for i := 0 to |orders|
      invariant sales == TotalSales(orders[..i])
      invariant vials == TotalVials(orders[..i])
    {
      assert orders[..i + 1][..i] == orders[..i];
      sales := sales + OrderTotal(orders[i]);
      vials := vials + VialsInOrder(orders[i]);
    }
    assert orders[..|orders|] == orders;
    var value, low := 0, 0;
    for i := 0 to |products|
      invariant value == TotalInventoryValue(products[..i])
      invariant low == LowStockCount(products[..i])
      invariant 0 <= low <= i
    {
      assert products[..i + 1][..i] == products[..i];
      value := value + ProductValue(products[i]);
      if IsLowStock(products[i]) {
        low := low + 1;
      }
    }
    assert products[..|products|] == products;
    LowStockCountIsFilterLength(products);
    stats := Stats(sales, vials, value, |products|, low);
  }

  /** Orders that are not sales never change the sales figures. */
  lemma NonSalesDoNotCount(all: seq<SalesOrder>, more: seq<SalesOrder>)
    requires forall i :: 0 <= i < |more| ==> !IsSale(more[i])
    ensures SalesOrders(all + more) == SalesOrders(all)
  {
    FilterAppend(all, more, IsSale);
    FilterKeepsNone(more, IsSale);
  }

  /** Every variation has nothing: `every(v => v.stock_quantity === 0)`, else the product's stock is 0. */
  predicate IsOutOfStock(p: Product) {
    if HasVariations(p) then forall i :: 0 <= i < |p.variations| ==> p.variations[i].stock == 0
    else p.stock == 0
  }

  predicate NonNegativeStock(p: Product) {
    && p.stock >= 0
    && forall i :: 0 <= i < |p.variations| ==> p.variations[i].stock >= 0
  }

  /** With no negative stock anywhere, "in stock" and "out of stock" split the products in two. */
  lemma InStockOutOfStockComplementary(p: Product)
    requires NonNegativeStock(p)
    ensures HasAnyStock(p) <==> !IsOutOfStock(p)
  {
  }

  /** The stock selector's predicate; any value other than the three named ones keeps everything. */
  predicate PassesStock(p: Product, filter: string) {
    if filter == "low-stock" then IsLowStock(p)
    else if filter == "out-of-stock" then IsOutOfStock(p)
    else if filter == "in-stock" then HasAnyStock(p)
    else true
  }

  /** A product survives the whole chain: category ("all" keeps every one), search (only a non-blank query is applied), stock. */
  predicate Passes(p: Product, category: string, query: string, filter: string) {
    && (category == "all" || p.category == category)
    && (IsBlank(query) || Menu.Matches(p, query))
    && PassesStock(p, filter)
  }

  /** One stage of the chain: `filter(keep)` when the stage is switched on, otherwise the list as it is. */
  function Stage(xs: seq<Product>, on: bool, keep: Product -> bool): (r: seq<Product>)
    ensures forall x :: x in r <==> x in xs && (!on || keep(x))
    ensures IsSubsequence(r, xs)
  {
    if on then
      FilterIsSubsequence(xs, keep);
      FilterBy(xs, keep)
    else
      SubsequenceReflexive(xs);
      xs
  }

  /** The stock stage is on for the three named filters. */
  function StockOn(filter: string): (r: bool)
    ensures !r ==> forall p :: PassesStock(p, filter)
  {
    filter == "low-stock" || filter == "out-of-stock" || filter == "in-stock"
  }

  /** `filteredProducts`: exactly the products passing all three stages, in table order. */
  function FilteredProducts(products: seq<Product>, category: string, query: string, filter: string): (r: seq<Product>)
    ensures IsSubsequence(r, products)
    ensures forall x :: x in r <==> x in products && Passes(x, category, query, filter)
  {
    var byCategory := Stage(products, category != "all", (p: Product) => p.category == category);
    var bySearch := Stage(byCategory, HasText(query), (p: Product) => Menu.Matches(p, query));
    var byStock := Stage(bySearch, StockOn(filter), (p: Product) => PassesStock(p, filter));
    SubsequenceTransitive(bySearch, byCategory, products);
    SubsequenceTransitive(byStock, bySearch, products);
    forall x ensures x in byStock <==> x in products && Passes(x, category, query, filter) {
      assert x in byCategory <==> x in products && (category == "all" || x.category == category);
      assert x in bySearch <==> x in byCategory && (!HasText(query) || Menu.Matches(x, query));
      assert x in byStock <==> x in bySearch && (!StockOn(filter) || PassesStock(x, filter));
    }
    byStock
  }
}
