# Peptide storefront core, modelled in Dafny

This project models the pure logic of a React/Supabase storefront that sells
peptides, together with its back office. Each Dafny module follows one
component or hook:

- `Catalog`: the entities (product, variation, cart line) and the rules several components share. These are the product-level price, "any stock at all", the stock a selection offers, the minus button's floor and `Array.prototype.filter`.
- `Strings`: the JavaScript string operations the components rely on. These are `trim`, `toLowerCase`, `includes`, `split`/`join`, `split(sep).pop()` and number-to-text.
- `MenuItemCard` and `ProductDetailModal`: how a product card and the detail view pick a size, price it, step the quantity and enable "Add to Cart".
- `Menu`: the storefront grid's search, sort and "in cart" counts.
- `Cart`: the cart page's stepper requests, line totals, item count and summary.
- `Checkout`: the detail validator, the step flow, the order-items snapshot, the inserted order row and the error reporting.
- `OrderTracking`: the lookup, the status-to-step mapping, the progress bar and its markers.
- `Inventory`: the inventory screen's sales, vial, valuation and low-stock figures, and its chained filters.
- `AdminDashboard`: the product editor's save guard and payloads, selection and bulk delete, the inclusions text area and image-URL normalisation.
- `VariationManager`: the size editor's forms, validation and state changes.
- `ImageUpload`: file validation, the stored file name, simulated progress, the classification of storage errors, the upload sequence and the delete target.

JavaScript's loose semantics are written out. Truthiness makes `0`, `""`,
`null` and `undefined` falsy. `x || 0` and `x || null` are explicit
functions. A missing key differs from a key that holds `undefined`. Every
backend call becomes a parameter: the insert, the delete, the RPC lookup,
the storage check, the upload and the product save each come in as an
outcome value, and the model states what the component does with each
outcome.

## Model

| member | source | states |
|---|---|---|
| Catalog.DiscountApplies | src/components/MenuItemCard.tsx:30 | `discount_active && discount_price`: the discount applies only when it is active and its price is present and non-zero. |
| Catalog.HasAnyStock | src/components/MenuItemCard.tsx:40-42 | With variations, some variation has positive stock; without them, the product's own stock is positive. |
| Catalog.ProductPrice | src/components/MenuItemCard.tsx:24-28 | The product-level price is the discount price exactly when the discount is active and its price is non-null and non-zero, otherwise the base price. A price that differs from the base price implies an active discount. |
| Catalog.AvailableStock | src/components/MenuItemCard.tsx:37 | The stock a selection offers is the selected variation's stock, or the product's own stock when nothing is selected. |
| Catalog.Decrement | src/components/MenuItemCard.tsx:54 | The minus button never goes below 1, takes exactly one off above 1, and never increases a quantity of at least 1. |
| Catalog.DecrementTimesFloor | src/components/ProductDetailModal.tsx:33 | Any number of minus presses from a quantity of at least 1 lands on max(1, q - n). |
| Catalog.FilterBy | src/components/Menu.tsx:22-25 | `filter` keeps exactly the elements satisfying the predicate and is never longer than its input. |
| Catalog.FilterAppend | src/components/PeptideInventoryManager.tsx:90-96 | Filtering a concatenation is the concatenation of the filtered parts. |
| Catalog.FilterKeepsAll | src/components/AdminDashboard.tsx:622 | A filter that keeps every element returns its input unchanged. |
| Catalog.FilterKeepsNone | src/components/PeptideInventoryManager.tsx:39-43 | A filter that keeps no element returns the empty list. |
| Catalog.FilterEmptyIff | src/components/AdminDashboard.tsx:622-623 | A filter's result is empty if and only if no element is kept. |
| Catalog.FilterIsSubsequence | src/components/Menu.tsx:22-25 | `filter` preserves the original order: its result is a subsequence of its input. |
| Catalog.SubsequenceReflexive | src/components/PeptideInventoryManager.tsx:109 | A list that no stage filters is a subsequence of itself. |
| Catalog.SubsequenceTransitive | src/components/PeptideInventoryManager.tsx:108-150 | Chained filter stages keep their result a subsequence of the original list. |
| Strings.TrimStart | src/components/Checkout.tsx:47 | Leading white space is removed: the result is a suffix preceded only by white space and does not start with white space. |
| Strings.TrimEnd | src/components/Checkout.tsx:47 | Trailing white space is removed: the result is a prefix followed only by white space and does not end with white space. |
| Strings.Trim | src/components/Checkout.tsx:46-54 | `trim()` is a slice surrounded by white space that neither starts nor ends with white space, and it is empty exactly for an all-white-space string. |
| Strings.HasText | src/components/Checkout.tsx:47-54 | `s.trim() !== ''` holds exactly when some character is not white space. It is the test for a filled detail field, for the inventory search (PeptideInventoryManager.tsx line 117) and for a kept inclusions line (AdminDashboard.tsx line 622). |
| Strings.TrimIdempotent | src/components/AdminDashboard.tsx:736-740 | Trimming a trimmed string changes nothing. |
| Strings.LowerChar | src/components/Menu.tsx:23 | An ASCII upper-case letter maps to the lower-case letter at the same position in the alphabet; every other character is kept; no upper-case ASCII letter comes out. |
| Strings.ToLower | src/components/Menu.tsx:23-24 | `toLowerCase()` keeps the length and lowers each character in place. |
| Strings.ToLowerIdempotent | src/components/Menu.tsx:23-24 | Lowering a lowered string changes nothing. |
| Strings.ContainsIffOccurs | src/components/Menu.tsx:23 | `includes(q)` holds exactly when `q` occurs at some position. |
| Strings.ShiftOccurrence | src/components/Menu.tsx:23 | An occurrence at position i >= 1 is an occurrence at i - 1 in the string without its first character. |
| Strings.ContainsEmpty | src/components/Menu.tsx:23-24 | Every string includes the empty string. |
| Strings.ContainsTransitive | src/hooks/useImageUpload.ts:130 | A string that includes t includes everything t includes. |
| Strings.ContainsAppended | src/hooks/useImageUpload.ts:84 | A string includes any of its suffixes. |
| Strings.Split | src/components/AdminDashboard.tsx:622 | `split(sep)` gives at least one piece, no piece holds the separator, and joining the pieces with it restores the string. |
| Strings.JoinFirstChar | src/components/AdminDashboard.tsx:620 | Joining pieces whose first piece has a first character is that character followed by the join of the shortened pieces. |
| Strings.SplitJoin | src/components/AdminDashboard.tsx:620-622 | Splitting the join of separator-free pieces gives back the pieces. |
| Strings.LastStart | src/hooks/useImageUpload.ts:40 | The last segment starts right after the last separator, or at 0 when there is none: no separator follows that position. |
| Strings.LastSegment | src/hooks/useImageUpload.ts:40 | `split(sep).pop()` is a separator-free suffix that is the whole string or directly follows a separator. |
| Strings.LastSegmentUnique | src/hooks/useImageUpload.ts:40 | Only one suffix has those three properties. |
| Strings.JoinLast | src/hooks/useImageUpload.ts:164-165 | A join of two or more pieces is the join of all but the last, the separator, then the last piece. |
| Strings.LastSegmentAfterSeparator | src/hooks/useImageUpload.ts:41 | After `a + sep + b` with a separator-free `b`, the last segment is `b`. |
| Strings.JoinedLastSegment | src/hooks/useImageUpload.ts:164-165 | The last segment of a join of separator-free pieces is the last piece. |
| Strings.LastSegmentIsLastPiece | src/hooks/useImageUpload.ts:164-165 | `parts[parts.length - 1]` of a split is the last segment. |
| Strings.NatToString | src/components/AdminDashboard.tsx:129-131 | A count is written as decimal digits with no leading zero, one digit below 10, and the digits read back as the count itself. |
| MenuItemCard.InitialSelection | src/components/MenuItemCard.tsx:19-21 | The card opens on the first variation, and on none exactly when there are no variations. |
| MenuItemCard.CurrentPrice | src/components/MenuItemCard.tsx:24-28 | A selected variation's price is used as it is; without a selection the product's discount price applies when it is active and non-zero, else the base price. |
| MenuItemCard.PriceIgnoresDiscountFields | src/components/MenuItemCard.tsx:24-25 | With a variation selected, no discount field of the product or the variation changes the card's price. |
| MenuItemCard.BadgeMeansDiscountedPrice | src/components/MenuItemCard.tsx:30 | When the discount badge shows, the displayed price is the non-zero discount price. |
| MenuItemCard.HasDiscount | src/components/MenuItemCard.tsx:30 | The card's discount badge shows only with no size selected and an active, non-zero product discount. |
| MenuItemCard.Increment | src/components/MenuItemCard.tsx:44-52 | Plus adds one when below the available stock; at or above it the quantity stays and the user is alerted. |
| MenuItemCard.IncrementTimesCapped | src/components/MenuItemCard.tsx:44-52 | Pressing plus n times from within stock lands on min(q + n, stock). |
| MenuItemCard.IncrementDisabled | src/components/MenuItemCard.tsx:239 | The plus button is disabled when the quantity has reached the available stock. |
| MenuItemCard.IncrementDisabledIffRefused | src/components/MenuItemCard.tsx:44-52 | The plus button is disabled exactly when a press would only alert; when enabled, a press adds exactly one. |
| MenuItemCard.SelectVariation | src/components/MenuItemCard.tsx:159-164 | A click on a size with zero stock keeps the selection; any other click selects that size. |
| MenuItemCard.SelectionStaysAmongVariations | src/components/MenuItemCard.tsx:155-164 | Clicks on the product's own sizes keep the selection one of its variations. |
| MenuItemCard.AddToCart | src/components/MenuItemCard.tsx:248-256 | A quantity above the available stock is cut back to the stock and nothing is added; otherwise the product, selection and quantity are sent and the stepper resets to 1. |
| MenuItemCard.AddDisabled | src/components/MenuItemCard.tsx:257 | The add button is disabled when nothing is in stock anywhere, the selection offers no stock, or the quantity is 0. |
| MenuItemCard.EnabledAddWithinStockAdds | src/components/MenuItemCard.tsx:248-257 | An enabled add button with a quantity within stock sends exactly that request and resets the stepper to 1; with no stock on the selection the button is disabled and a positive quantity would be clamped to 0. |
| MenuItemCard.SteppedQuantityIsAdded | src/components/MenuItemCard.tsx:44-54 | Any quantity reached from 1 by plus and minus presses is added without being clamped. |
| ProductDetailModal.FirstInStock | src/components/ProductDetailModal.tsx:15 | `find(v => v.stock_quantity > 0)`: the first position with positive stock, or none when no variation has stock. |
| ProductDetailModal.FirstAvailableVariation | src/components/ProductDetailModal.tsx:13-17 | No selection without variations; otherwise the first variation in stock, or the first variation when none is in stock. |
| ProductDetailModal.CurrentPrice | src/components/ProductDetailModal.tsx:24-25 | A selected size with a non-zero price gives that price; no selection, or a size priced 0, falls back to the product-level price. |
| ProductDetailModal.Saving | src/components/ProductDetailModal.tsx:148-152 | The "Save" amount is the base price less the displayed unselected price, and it is positive exactly when the discount price is below the base price. |
| ProductDetailModal.CardAndDetailPrices | src/components/ProductDetailModal.tsx:25 | The detail view and the card show the same price, except for a selected size priced 0, where the card shows 0 and the detail view the product price. |
| ProductDetailModal.Increment | src/components/ProductDetailModal.tsx:32-33 | Plus always increases the quantity, with no stock cap, and from a quantity of at least 1 the minus button takes it back to where it was. |
| ProductDetailModal.HasDiscount | src/components/ProductDetailModal.tsx:24 | The sale badge shows exactly when the product's discount is active with a non-zero discount price, whatever size is selected. |
| ProductDetailModal.FindById | src/components/ProductDetailModal.tsx:164 | `find(v => v.id === id)`: the first variation with that id, or none when no variation has it. |
| ProductDetailModal.SelectSize | src/components/ProductDetailModal.tsx:163-167 | The selector switches only to an existing size with that id and positive stock; otherwise the selection stays. |
| ProductDetailModal.AddLabel | src/components/ProductDetailModal.tsx:231-235 | The button reads "Out of Stock" exactly when it is disabled, and "Add to Cart" otherwise. |
| ProductDetailModal.AddDisabled | src/components/ProductDetailModal.tsx:231 | The add button is disabled when nothing is in stock anywhere, when the selected size has stock 0, or when there is no size and the product stock is 0. |
| ProductDetailModal.Total | src/components/ProductDetailModal.tsx:223 | The total for one item is the unit price, for none it is 0, and it is never negative for a non-negative price and quantity. |
| ProductDetailModal.TotalIsRepeatedPrice | src/components/ProductDetailModal.tsx:223 | The total for q items is the current price added up q times, so every press of plus adds exactly one current price. |
| ProductDetailModal.OpensEnabledWhenInStock | src/components/ProductDetailModal.tsx:13-17 | When some size is in stock, the view opens with "Add to Cart" enabled. |
| ProductDetailModal.SelectorKeepsStockedSelection | src/components/ProductDetailModal.tsx:163-167 | Starting from the opening selection or any stocked one, the selector always leaves a selected size with stock. |
| Menu.Matches | src/components/Menu.tsx:23-24 | A product matches when its lower-cased name or lower-cased description includes the lower-cased query. |
| Menu.FilteredProducts | src/components/Menu.tsx:22-25 | The grid keeps exactly the products whose lower-cased name or description includes the lower-cased query, in catalogue order. |
| Menu.EmptyQueryKeepsAll | src/components/Menu.tsx:22-25 | An empty search shows the whole catalogue in order. |
| Menu.QueryCaseInsensitive | src/components/Menu.tsx:23-24 | The case of the query makes no difference to which products match. |
| Menu.NameLeTotal | src/components/Menu.tsx:31 | Any two names are comparable. |
| Menu.NameLeTransitive | src/components/Menu.tsx:31 | The name order is transitive. |
| Menu.Le | src/components/Menu.tsx:28-38 | The three comparators: name by code points, base price ascending, purity descending. |
| Menu.LeTotal | src/components/Menu.tsx:28-38 | Each of the three comparators compares every pair. |
| Menu.LeTransitive | src/components/Menu.tsx:28-38 | Each of the three comparators is transitive, so the sort is well defined. |
| Menu.PrecedesSorted | src/components/Menu.tsx:28-38 | An element that may precede the head of a sorted list may precede all of it. |
| Menu.HeadPrecedesInserted | src/components/Menu.tsx:28-38 | The head of a sorted list may precede every element of its tail with one more element inserted. |
| Menu.Insert | src/components/Menu.tsx:28-38 | Inserting into a sorted list adds exactly that element and keeps the list sorted. |
| Menu.SortedProducts | src/components/Menu.tsx:28-38 | The sorted grid is a permutation of the filtered list, ordered by name, by ascending base price or by descending purity. |
| Menu.GridIsSortedMatches | src/components/Menu.tsx:22-39 | The grid is sorted, shows only matching products and shows every matching product. |
| Menu.CartQuantityAppend | src/components/Menu.tsx:41-48 | The "in cart" count of two runs of lines is the sum of their counts. |
| Menu.LineCounts | src/components/Menu.tsx:43-46 | A line counts for a product and size when its product id matches and its size has the asked id; with no size asked (or an empty id), only lines without a size count. |
| Menu.CartQuantity | src/components/Menu.tsx:41-48 | The "in cart" count of a product and size is the summed quantity of the lines that count for it. |
| Menu.CartQuantityIsFilteredCount | src/components/Menu.tsx:41-48 | The count equals the cart page's item count of exactly the lines that `filter` keeps. |
| Menu.CartQuantityOfUncounted | src/components/Menu.tsx:43-46 | Lines of another product, or with the wrong size, add nothing to the count. |
| Menu.CardCartQuantity | src/components/Menu.tsx:136 | A card asks for its product's count with no variation id. |
| Menu.CardCountIgnoresSizedLines | src/components/Menu.tsx:136 | Cards ask without a variation id, so lines that carry a size never change a card's count. |
| Cart.LineStock | src/components/Cart.tsx:155 | A line may grow up to its variation's stock, or its product's stock when it has no variation. |
| Cart.IncrementRequest | src/components/Cart.tsx:154-161 | Plus requests exactly one more, and does so exactly when the line is below its stock; otherwise nothing is sent. |
| Cart.IncrementDisabled | src/components/Cart.tsx:162-165 | The cart's plus button is disabled when the line's quantity has reached its stock. |
| Cart.DisabledIffNoRequest | src/components/Cart.tsx:154-165 | The plus button is disabled exactly when pressing it would send no request. |
| Cart.DecrementRequest | src/components/Cart.tsx:138 | Minus always requests one less for the same line, with no floor on this page. |
| Cart.LineTotal | src/components/Cart.tsx:174 | A line's total is its stored price for one item and 0 for none. |
| Cart.LineTotalIsRepeatedPrice | src/components/Cart.tsx:174 | A line of q items costs its stored price added up q times, so one more item adds exactly one stored price. |
| Cart.LineTotalIgnoresCatalog | src/components/Cart.tsx:174 | Later changes to the product or its variation do not move a line's total. |
| Cart.ItemCount | src/components/Cart.tsx:197 | The summary's item count: the lines' quantities summed, in cart order. |
| Cart.LinesTotal | src/components/Cart.tsx:174 | The sum of the displayed line totals over the cart. |
| Cart.ItemCountAppend | src/components/Cart.tsx:197 | The item count of two runs of lines is the sum of their counts. |
| Cart.LinesTotalAppend | src/components/Cart.tsx:174 | The sum of line totals of two runs of lines is the sum of their sums. |
| Cart.ItemCountAtLeastLines | src/components/Cart.tsx:197 | With at least one item per line, the count is at least the number of lines. |
| Cart.RotationInvariant | src/components/Cart.tsx:197 | Reordering the cart by rotation changes neither the count nor the sum of line totals. |
| Cart.OrderSummary | src/components/Cart.tsx:52-54 | The final total equals the subtotal, which is the cart total with no shipping added; the count is the items' quantities summed. |
| Checkout.IsDetailsValid | src/components/Checkout.tsx:46-54 | The details are valid exactly when none of the eight fields is blank. |
| Checkout.Proceed | src/components/Checkout.tsx:56-60 | Valid details lead to the payment step; invalid ones leave the step unchanged. |
| Checkout.Back | src/components/Checkout.tsx:478 | Back from payment returns to the details step. |
| Checkout.NullIfEmpty | src/components/Checkout.tsx:70-71 | `x || null` on an optional string: absent and empty both become null; anything else is kept. |
| Checkout.ItemOf | src/components/Checkout.tsx:67-76 | An order item carries the line's product id, name and purity, quantity, stored price and displayed total; the size's id and name when they are non-empty, null otherwise and null without a size. |
| Checkout.Snapshot | src/components/Checkout.tsx:67-76 | There is one order item per cart line, in cart order, with the line's product id, name and purity, quantity, stored price and total, and its size's id and name (null when empty or when there is no size). |
| Checkout.SnapshotTotalIsLinesTotal | src/components/Checkout.tsx:67-76 | The items' totals add up to the cart page's line totals. |
| Checkout.FindMethod | src/components/Checkout.tsx:63 | `find(pm => pm.id === selected)`: the first listed method with that id, or none when no method has it. |
| Checkout.DefaultPaymentMethod | src/components/Checkout.tsx:37-41 | With methods listed and none selected, the first one is selected; otherwise the selection is kept. |
| Checkout.BuildOrder | src/components/Checkout.tsx:81-97 | The inserted row carries the details as typed, the snapshot, the cart total, the found method's id and name (each null when empty, both null when no method is found), the trimmed notes (null when blank), and the statuses "new" and "pending". |
| Checkout.OrderTotalMatchesItems | src/components/Checkout.tsx:67-91 | When the cart total is the sum of its lines, the stored total equals the sum of the stored item totals. |
| Checkout.InsertErrorText | src/components/Checkout.tsx:105-110 | An insert error that mentions a missing table or the schema cache is replaced by the migration hint; any other message is shown unchanged. |
| Checkout.PlaceOrder | src/components/Checkout.tsx:101-114 | Confirmation is reached only after a successful insert. An insert error or a thrown error raises its alert and leaves the step unchanged. |
| Checkout.StepMachine | src/components/Checkout.tsx:56-60 | From details, payment is reached exactly with valid details; from payment, confirmation is reached exactly through a successful insert. |
| OrderTracking.IndexOf | src/components/OrderTracking.tsx:69 | `indexOf` gives the first position of the value, or -1 exactly when it is absent. |
| OrderTracking.StatusStep | src/components/OrderTracking.tsx:67-73 | A status on the bar maps to its position; "cancelled" and every unknown status map to -1. |
| OrderTracking.StatusSteps | src/components/OrderTracking.tsx:68 | "new" through "delivered" map to steps 0 to 4. |
| OrderTracking.CurrentStep | src/components/OrderTracking.tsx:75 | With no order the step is 0; otherwise it is the order status's step. |
| OrderTracking.ProgressWidth | src/components/OrderTracking.tsx:166 | The bar's width is 25 per step, clamped to 0..100. |
| OrderTracking.ProgressMonotone | src/components/OrderTracking.tsx:166 | A later step never shows a shorter bar. |
| OrderTracking.ProgressOfStatus | src/components/OrderTracking.tsx:166 | "delivered" fills the bar; a status that is not on the bar leaves it empty. |
| OrderTracking.Markers | src/components/OrderTracking.tsx:170-178 | Five markers: completed up to and including the step, current at the step, checked before it. |
| OrderTracking.MarkersShape | src/components/OrderTracking.tsx:171-172 | At most one marker is current, the completed markers form a prefix, and none is completed for a negative step. |
| OrderTracking.ShowProgressBar | src/components/OrderTracking.tsx:160 | The bar and its markers show for every status except "cancelled". |
| OrderTracking.UnknownStatusShowsEmptyBar | src/components/OrderTracking.tsx:160-172 | An unknown, non-cancelled status still shows the bar, empty and with no marker completed. |
| OrderTracking.DisplayedTotal | src/components/OrderTracking.tsx:263 | The total is the order total plus the shipping fee, with a missing fee counted as 0. |
| OrderTracking.TrackQuery | src/components/OrderTracking.tsx:30-41 | A blank input asks nothing; otherwise the lookup asks for the trimmed id. |
| OrderTracking.Track | src/components/OrderTracking.tsx:28-65 | A blank input changes nothing. Otherwise the search is marked done, and the view shows either the order or exactly one message: not found for PGRST116 or an empty result, a generic error for any other error or a throw. |
| Inventory.SalesOrders | src/components/PeptideInventoryManager.tsx:39-43 | The sales list holds exactly the paid orders whose status is confirmed, processing, shipped or delivered, kept in their stored order. |
| Inventory.IsSale | src/components/PeptideInventoryManager.tsx:42-43 | An order is a sale when its status is one of confirmed, processing, shipped or delivered and its payment is "paid". |
| Inventory.OrderTotal | src/components/PeptideInventoryManager.tsx:57 | An order's sales total is its price plus its shipping fee, with a missing fee counted as 0. |
| Inventory.TotalSales | src/components/PeptideInventoryManager.tsx:56-59 | Total sales are the order totals summed. |
| Inventory.TotalSalesAppend | src/components/PeptideInventoryManager.tsx:56-59 | The total sales of two runs of orders is the sum of their totals. |
| Inventory.VialsInOrder | src/components/PeptideInventoryManager.tsx:62-69 | An order whose items column is a list contributes its items' quantities summed; any other column contributes no vials. |
| Inventory.ItemQuantity | src/components/PeptideInventoryManager.tsx:64 | An item's quantity with a missing value read as 0: the quantity when present, 0 when missing. |
| Inventory.ItemsQuantity | src/components/PeptideInventoryManager.tsx:63-65 | The items' quantities summed, in list order. |
| Inventory.ItemsQuantityAppend | src/components/PeptideInventoryManager.tsx:63-65 | The vials of two runs of items add up. |
| Inventory.TotalVials | src/components/PeptideInventoryManager.tsx:62-70 | Vials sold are the per-order vial counts summed. |
| Inventory.TotalVialsAppend | src/components/PeptideInventoryManager.tsx:62-70 | The vials sold in two runs of orders add up. |
| Inventory.ProductValue | src/components/PeptideInventoryManager.tsx:72-86 | With variations, the value is the sum of each variation's stock times price; without them, it is the product's stock times the product-level price. |
| Inventory.TotalInventoryValue | src/components/PeptideInventoryManager.tsx:72-86 | The inventory value is the product values summed. |
| Inventory.TotalInventoryValueAppend | src/components/PeptideInventoryManager.tsx:72-86 | The inventory value of two runs of products adds up. |
| Inventory.LowStockCount | src/components/PeptideInventoryManager.tsx:90-96 | The number of low-stock products, counted one product at a time. |
| Inventory.LowStockCountIsFilterLength | src/components/PeptideInventoryManager.tsx:90-96 | The running low-stock count equals the length of the low-stock filter. |
| Inventory.IsLowStock | src/components/PeptideInventoryManager.tsx:90-96 | A product with variations is low when some variation has between 1 and 4 in stock; one without is low when its own stock is between 1 and 4. |
| Inventory.ValueIgnoresProductFieldsWithVariations | src/components/PeptideInventoryManager.tsx:78-83 | With variations, neither the product's own stock nor its prices or discount change its value. |
| Inventory.LowStockHasStock | src/components/PeptideInventoryManager.tsx:90-96 | A low-stock product always has some stock. |
| Inventory.ComputeStats | src/components/PeptideInventoryManager.tsx:54-105 | The five figures are total sales, vials sold, inventory value, the product count and the low-stock count, which never exceeds the product count. |
| Inventory.NonSalesDoNotCount | src/components/PeptideInventoryManager.tsx:39-43 | Adding orders that are not sales leaves the sales list unchanged. |
| Inventory.IsOutOfStock | src/components/PeptideInventoryManager.tsx:134-140 | With variations, every variation has stock exactly 0; without them, the product's own stock is 0. |
| Inventory.InStockOutOfStockComplementary | src/components/PeptideInventoryManager.tsx:133-146 | With no negative stock, "in stock" and "out of stock" split the products exactly in two. |
| Inventory.Stage | src/components/PeptideInventoryManager.tsx:112-114 | A stage that is switched on keeps exactly the passing products; a stage that is off keeps all of them; order is preserved. |
| Inventory.StockOn | src/components/PeptideInventoryManager.tsx:126-147 | Any stock filter other than the three named ones keeps every product. |
| Inventory.PassesStock | src/components/PeptideInventoryManager.tsx:126-147 | "low-stock", "out-of-stock" and "in-stock" select low, out-of-stock and in-stock products; any other value keeps every product. |
| Inventory.Passes | src/components/PeptideInventoryManager.tsx:108-150 | A product passes when its category matches or is "all", a non-blank query matches it, and it passes the stock selector. |
| Inventory.FilteredProducts | src/components/PeptideInventoryManager.tsx:108-150 | The table shows exactly the products passing the category, search and stock conditions, in their original order. |
| AdminDashboard.Get | src/components/AdminDashboard.tsx:176 | Reading a missing key gives `undefined`. |
| AdminDashboard.SaveAllowed | src/components/AdminDashboard.tsx:164-167 | Save proceeds exactly when name, description and base price are all truthy; in particular all three are present and non-empty or non-zero. |
| AdminDashboard.NullableKeysListed | src/components/AdminDashboard.tsx:176-182 | The seven nullable keys are exactly those that `prepareData` fills with null. |
| AdminDashboard.PrepareData | src/components/AdminDashboard.tsx:173-184 | Each of the seven nullable keys that reads as undefined becomes null and is then present; every other entry is kept unchanged. |
| AdminDashboard.PrepareDataIdempotent | src/components/AdminDashboard.tsx:173-184 | Preparing twice is preparing once. |
| AdminDashboard.PickDbFields | src/components/AdminDashboard.tsx:187-215 | The payload keeps exactly the entries whose key is a listed table column, with their values unchanged. |
| AdminDashboard.ImageUrlValue | src/components/AdminDashboard.tsx:223 | The editor's image URL is never undefined: a defined value is kept, an undefined one becomes null. |
| AdminDashboard.Without | src/components/AdminDashboard.tsx:219 | A rest pattern keeps exactly the other keys with their values. |
| AdminDashboard.WithoutAgrees | src/components/AdminDashboard.tsx:219 | Dropping keys that are not columns leaves every column's entry as it was. |
| AdminDashboard.UpdateAgrees | src/components/AdminDashboard.tsx:231 | Setting the same key on two forms that agree on every column keeps them agreeing. |
| AdminDashboard.PrepareAgrees | src/components/AdminDashboard.tsx:233 | Preparing two forms that agree on every column keeps them agreeing. |
| AdminDashboard.PickAgrees | src/components/AdminDashboard.tsx:239 | Forms that agree on every column give the same payload. |
| AdminDashboard.Finish | src/components/AdminDashboard.tsx:231-239 | Forcing `image_url`, preparing and picking gives exactly the columns present or nullable. A non-nullable column keeps its value, an undefined nullable one is null, and `image_url` is the forced value. |
| AdminDashboard.FinishIgnoresDropped | src/components/AdminDashboard.tsx:219-239 | Dropping non-column keys before finishing changes nothing. |
| AdminDashboard.ForcingAgainIsNoOp | src/components/AdminDashboard.tsx:235-236 | The second forcing of `image_url` after preparing changes nothing. |
| AdminDashboard.ReadOnlyKeysAreNotColumns | src/components/AdminDashboard.tsx:219 | The id, the timestamps and the variations relation are not table columns. |
| AdminDashboard.UpdatePayload | src/components/AdminDashboard.tsx:217-239 | The update payload is the whole form finished with the editor's image URL, and it always carries `image_url`. |
| AdminDashboard.CreatePayload | src/components/AdminDashboard.tsx:274-287 | The insert payload is the same finished form, so a create sends what an update would, and it always carries `image_url`. |
| AdminDashboard.InclusionsAreNotSent | src/components/AdminDashboard.tsx:187-205 | Neither payload carries `inclusions`, because it is not in the column list. |
| AdminDashboard.Save | src/components/AdminDashboard.tsx:163-287 | Save is rejected with its alert exactly when the guard fails. Otherwise it updates the edited product or creates one, and both send the same payload: the form without read-only keys, with `image_url` forced and only table columns. |
| AdminDashboard.CaughtMessage | src/components/AdminDashboard.tsx:251-316 | The message the catch sees: an update failure's error or "Failed to update product", a create failure's error as it is (empty when undefined), a thrown error's message, or "Unknown error". |
| AdminDashboard.AfterSaving | src/components/AdminDashboard.tsx:163-316 | The editor returns to the product list exactly when the guard held and the save and refresh succeeded, and then no alert is raised. Otherwise a rejected form alerts the required-fields text and a failed save alerts "Failed to save product: " with the reason. |
| AdminDashboard.ToggleSelect | src/components/AdminDashboard.tsx:144-152 | Toggling flips that id's membership and keeps every other id's. |
| AdminDashboard.ToggleSelectInvolution | src/components/AdminDashboard.tsx:144-152 | Toggling the same product twice restores the selection. |
| AdminDashboard.ProductIds | src/components/AdminDashboard.tsx:159 | `new Set(products.map(p => p.id))` holds exactly the listed ids and is no larger than the list. |
| AdminDashboard.IdsOfCons | src/components/AdminDashboard.tsx:159 | The ids of a non-empty list are its first id together with the ids of the rest. |
| AdminDashboard.ToggleSelectAll | src/components/AdminDashboard.tsx:154-161 | "Select all" clears a selection as large as the list and otherwise selects every listed id. |
| AdminDashboard.DistinctIdsCount | src/components/AdminDashboard.tsx:155 | With distinct ids there are as many ids as products. |
| AdminDashboard.FullSelectionBySize | src/components/AdminDashboard.tsx:155 | For a selection of listed products with distinct ids, comparing sizes is comparing sets. |
| AdminDashboard.SubsetSize | src/components/AdminDashboard.tsx:155 | A subset is no larger than its superset. |
| AdminDashboard.SelectAllTogglesFullSelection | src/components/AdminDashboard.tsx:154-161 | Under those conditions "select all" clears exactly a full selection and fills any other, so pressing it twice on a full selection restores it. |
| AdminDashboard.BulkDelete | src/components/AdminDashboard.tsx:107-142 | An empty selection only alerts, and a refused confirm does nothing. Otherwise each id is deleted in turn; successes plus failures equal the selection, the summary alert follows and the selection is cleared. A throw stops at that id, alerts and keeps the selection. |
| AdminDashboard.BulkDeleteMessage | src/components/AdminDashboard.tsx:128-132 | The summary starts "Successfully deleted " when nothing failed and "Deleted " otherwise. |
| AdminDashboard.AllDeletedMessageReadsBack | src/components/AdminDashboard.tsx:130-131 | The summary without failures states the success count: the number after its prefix reads back as that count. |
| AdminDashboard.SomeFailedMessageReadsBack | src/components/AdminDashboard.tsx:128-129 | The summary with failures states both counts: the successes after "Deleted " and the failures after " product(s). ". |
| AdminDashboard.InclusionsText | src/components/AdminDashboard.tsx:620 | Null or no inclusions show an empty text area. |
| AdminDashboard.Lines | src/components/AdminDashboard.tsx:622 | The text area's lines are at least one, and none holds a newline. |
| AdminDashboard.NonBlankLines | src/components/AdminDashboard.tsx:622-623 | The kept items are the non-blank lines, untrimmed and in order; the result is null exactly when every line is blank. |
| AdminDashboard.ParseInclusions | src/components/AdminDashboard.tsx:621-623 | Typing stores the non-blank lines in order, none holding a newline, or null exactly when all lines are blank. |
| AdminDashboard.ParseShowsRoundTrip | src/components/AdminDashboard.tsx:620-623 | Non-blank, newline-free items shown in the text area parse back to themselves. |
| AdminDashboard.ParseIsStable | src/components/AdminDashboard.tsx:620-623 | Whatever was typed, the stored items show as text that parses back to the same items. |
| AdminDashboard.NormaliseImageUrl | src/components/AdminDashboard.tsx:736-740 | A missing, empty or blank URL becomes null; otherwise the trimmed URL is kept. |
| AdminDashboard.NormaliseImageUrlIdempotent | src/components/AdminDashboard.tsx:736-740 | Normalising a normalised URL changes nothing. |
| VariationManager.DefaultDraft | src/components/VariationManager.tsx:17-24 | The form opens with no name, 5 mg, the product's base price, no discount and no stock. |
| VariationManager.AddValid | src/components/VariationManager.tsx:36-39 | An add is allowed exactly with a name, a positive price and a positive amount. |
| VariationManager.UpdateValid | src/components/VariationManager.tsx:88-91 | An update is allowed exactly when a size is being edited and the add conditions hold. |
| VariationManager.DefaultNotSubmittable | src/components/VariationManager.tsx:17-39 | The freshly opened form cannot be submitted. |
| VariationManager.NumberOrZero | src/components/VariationManager.tsx:199 | parseFloat-or-0: text that is not a number reads as 0; a number is kept. |
| VariationManager.DiscountOrNull | src/components/VariationManager.tsx:237 | parseFloat-or-null: no number and 0 both mean no discount price. |
| VariationManager.UnparsedNumbersFailValidation | src/components/VariationManager.tsx:199-212 | Text that is not a number, typed as a price or an amount, blocks the submit. |
| VariationManager.ToggleDiscount | src/components/VariationManager.tsx:248-252 | Checking keeps the typed discount price, unchecking clears it, and no other field changes. |
| VariationManager.ToggleDiscountIdempotent | src/components/VariationManager.tsx:248-252 | Setting the checkbox to the same state twice is setting it once. |
| VariationManager.LoadDraft | src/components/VariationManager.tsx:76-83 | The edit form is loaded with the size's six fields. |
| VariationManager.ApplyDraft | src/components/VariationManager.tsx:95 | An update replaces the six fields and keeps the id and product; loading the result gives back the draft. |
| VariationManager.UnchangedEditIsNoOp | src/components/VariationManager.tsx:74-95 | Saving an unchanged edit form writes back exactly the loaded size. |
| VariationManager.InitialEditor | src/components/VariationManager.tsx:17-33 | The editor opens closed, editing nothing, with both forms at the defaults. |
| VariationManager.SubmitAdd | src/components/VariationManager.tsx:35-72 | An invalid form only alerts. A successful add resets the form, closes it and alerts success. A failed add changes nothing and alerts the returned error, or "Failed to add variation" when it is empty; a thrown add alerts "Failed to add variation". |
| VariationManager.AddResetsToInitialForm | src/components/VariationManager.tsx:53-61 | After a successful add the form equals the one the editor opened with. |
| VariationManager.StartEdit | src/components/VariationManager.tsx:74-85 | Editing selects the size, loads its fields and closes the add form. |
| VariationManager.SubmitUpdate | src/components/VariationManager.tsx:87-107 | An invalid form or no edited size only alerts. A successful update ends the edit and alerts success. A failed update changes nothing and alerts the returned error, or "Failed to update variation" when it is empty; a thrown update alerts "Failed to update variation". |
| VariationManager.ToggleAddMode | src/components/VariationManager.tsx:328-331 | "Add New Size" flips the add form and ends any edit, keeping both forms. |
| VariationManager.EditAndAddExclusive | src/components/VariationManager.tsx:74-85 | Editing closes the add form, toggling the add form ends any edit, and toggling twice only ends the edit. |
| ImageUpload.Extension | src/hooks/useImageUpload.ts:20 | The extension is the lower-cased text after the last dot, or the whole lower-cased name when there is no dot. |
| ImageUpload.TypeOk | src/hooks/useImageUpload.ts:24 | A file has an allowed type when its MIME type is listed or its lower-cased extension is. |
| ImageUpload.Validate | src/hooks/useImageUpload.ts:18-37 | A file passes exactly with an accepted type or extension and a size from 100 bytes to 5 MiB. The first failing check, in the order type, too small, too large, decides the message. |
| ImageUpload.SizeBoundsInclusive | src/hooks/useImageUpload.ts:29-37 | Exactly 100 bytes and exactly 5 MiB pass; one byte more than 5 MiB fails. |
| ImageUpload.ExtensionCaseInsensitive | src/hooks/useImageUpload.ts:20 | An upper-case extension reads like its lower-case form. |
| ImageUpload.StoredFileName | src/hooks/useImageUpload.ts:40-41 | The stored name keeps the picked file's last dot-separated part as typed, without lowering it. |
| ImageUpload.Tick | src/hooks/useImageUpload.ts:44-52 | A progress tick adds 10 below 90 and holds at 90 from there. |
| ImageUpload.TicksValue | src/hooks/useImageUpload.ts:44-52 | After n ticks from 0 the bar shows min(10 n, 90). |
| ImageUpload.Progress | src/hooks/useImageUpload.ts:118-119 | Progress stays within 0..100; it is 100 exactly once the upload has returned, and at most 90 before. |
| ImageUpload.NotFoundCoversBucketNotFound | src/hooks/useImageUpload.ts:84 | Testing for "Bucket not found" besides "not found" adds nothing. |
| ImageUpload.RowLevelSecurityCovered | src/hooks/useImageUpload.ts:132 | Testing for "new row violates row-level security" besides "row-level security" adds nothing. |
| ImageUpload.BucketCheckError | src/hooks/useImageUpload.ts:83-87 | A bucket-check message mentioning "not found" means a missing bucket; anything else is reported as "Bucket error: " and the message. |
| ImageUpload.UploadError | src/hooks/useImageUpload.ts:130-135 | An upload error is a missing bucket first, then a policy refusal, otherwise "Upload failed: " with the message or "Unknown error". |
| ImageUpload.UploadErrorClasses | src/hooks/useImageUpload.ts:130-135 | A policy message never hides a missing bucket, and the generic message means neither test matched. |
| ImageUpload.Upload | src/hooks/useImageUpload.ts:18-154 | A URL comes back exactly when validation, the bucket check and the upload all succeed, and it is the stored file's public URL. Each failure ends the attempt with its own message: the validation message, the bucket-check error or its timeout, the upload error or its timeout, "no data returned", or the message of a rejected call, rethrown unchanged. |
| ImageUpload.DeleteTarget | src/hooks/useImageUpload.ts:164-165 | The file deleted is the URL's last '/'-separated piece, which holds no '/'. |
| ImageUpload.DeleteTargetsStoredName | src/hooks/useImageUpload.ts:41-165 | Deleting by a public URL that ends in a stored name removes that stored name. |

## Left out

- Rendering, styling, animation, routing and modal open/close state are left out; only the values the views compute are modelled.
- Backend calls are left out as I/O: Supabase queries, the insert, the delete, the RPC lookup, the storage bucket check, the upload and `getPublicUrl`. They are parameters carrying their outcome.
- The 30-second timeouts raced against the storage calls are modelled as outcome variants (`CheckTimedOut`, `StoreTimedOut`), not as clocks. A storage call whose promise rejects is `CheckThrew` or `StoreThrew`.
- `Date.now()` and `Math.random()` in the stored file name are left out as nondeterminism. The stamp they produce is a parameter and is assumed to hold no '.', which the source's digits, '-' and base-36 text guarantee.
- The simulated progress interval is a tick count, and the reset to 0 one second after an upload is left out as a timer.
- The storage folder name and the bucket name are fixed text in the messages; which folder a component passes is not modelled.
- The order confirmation text, the Messenger URL, the date formatting and `window.open` after an insert are left out as display and navigation.
- `toLocaleString` currency formatting is left out as display only.
- Numbers are `int`. Prices, milligram amounts and purity are floats in the source, and fractional values and float rounding are not modelled.
- Strings.ToLower: only ASCII letters are lowered, not the full Unicode case mapping of `toLowerCase`.
- Menu.NameLeTotal: `localeCompare` is modelled as code-point lexicographic order; locale collation tables are left out.
- Menu.SortedProducts: the stability of `Array.prototype.sort` is not stated; the contract gives a sorted permutation only.
- The cart hook (`addToCart`, `updateQuantity`, `getTotalPrice`, line removal) is not part of this model. The cart page's requests are the output, and the cart total is a parameter.
- The admin login and the other back-office screens (promo codes, FAQ, shipping, COA, hero and navigation) are left out as separate features.
- AdminDashboard.BulkDelete: the ids come in as a sequence in the set's iteration order; `confirm` is a boolean parameter.
- A thrown error whose message is `undefined` is rendered as the text "undefined" (`Shown`); a non-`Error` throw in checkout reads "Unknown error".
- Variation-level discount fields are stored and edited but never change a displayed price. The source behaves this way, and the model follows it; no component applies a variation discount.
- AdminDashboard.AfterSaving: the refresh after a save is folded into the outcome (a throw from it is a `SaveThrew`), and the image-URL mismatch check after an update only logs, so it is left out.
- `inclusions` is prepared (null when undefined) but is not in the column list, so it is never sent; `InclusionsAreNotSent` states this as the code behaves.
