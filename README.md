# Storefront controllers, modelled in Dafny

A model of the server side of a Laravel storefront: the product catalog that
shoppers and administrators browse, the administrator's product editing and
dashboard, the per-user shopping cart, checkout, and the order history. The
Eloquent tables are in-memory tables; the signed-in user (`Auth::id()`) is an
explicit `user` parameter of every operation.

| module (file) | models |
|---|---|
| `Base` (base.dfy) | request values, the validation rules the controllers use (`required`, `string`, `max`, `numeric`, `integer`, `min`, `email`), PHP truthiness, outcomes |
| `Seqs` (seqs.dfy) | the query-builder steps: `where`, `distinct`, `orderBy ... desc`, `paginate`, `sum` |
| `Catalog` (catalog.dfy) | the `products` row and the catalog query: search on name OR description, exact category, newest first, 12 per page, distinct categories |
| `Products` (products.dfy) | `ProductController`: listing, dashboard aggregates, create / update / delete on a `ProductTable` class |
| `Shop` (shop.dfy) | `ShopController::index` |
| `Cart` (cart.dfy) | `CartController`: the cart page summary and a `CartTable` class with add / update / destroy / clear |
| `Orders` (orders.dfy) | the `orders` and `order_items` tables (`OrderTable` class) and `OrderController::index` |
| `Checkout` (checkout.dfy) | `CheckoutController`: the checkout page and the all-or-nothing order placement |

State-changing controller actions are methods of the table classes (or, for
checkout, a method over the three tables); each method's postcondition gives
the new rows as a pure function of the old ones, and the properties of those
functions are lemmas. Read-only actions are functions.

Money is exact (`real`): the order total `subtotal * 1.10` is exactly the
displayed `subtotal + tax`.

Two behaviours of the code worth noting:
- The stored shipping address is every submitted field except the four card
  fields (`$request->except([...])`), not only the eight validated shipping
  fields.
- The rollback message echoes the exception text to the user; the model only
  records that the request failed.

## Model

| member | source | states |
|---|---|---|
| Catalog.Filtered | app/Http/Controllers/ProductController.php:55-65 | a product is kept exactly when it matches both filters; each filter is skipped when its input is falsy (null, "" or "0") |
| Catalog.NoFilterKeepsAll | app/Http/Controllers/ShopController.php:15-24 | with neither a search term nor a category every product is kept, in table order |
| Catalog.SearchIsOrCategoryIsAnd | app/Http/Controllers/ProductController.php:56-65 | a product whose description, but not its name, contains the term is still listed (OR); a different category excludes it again (AND) |
| Catalog.Listing | app/Http/Controllers/ProductController.php:66 | the matching products, as a permutation sorted newest first |
| Seqs.SortDescStable | app/Http/Controllers/ProductController.php:66 | the newest-first sort keeps rows with the same key in table order: the rows with any given key are the same sequence before and after sorting |
| Catalog.ListingPage | app/Http/Controllers/ProductController.php:66-67 | page n holds entries (n-1)*12 onwards of the sorted listing, as many as there are up to 12 (a missing or non-positive page is page 1); only matching products, newest first |
| Catalog.MatchIffListed | app/Http/Controllers/ProductController.php:55-67 | a product is on some page exactly when it is in the table and matches the filters |
| Catalog.Categories | app/Http/Controllers/ProductController.php:53 | every category of some product, each exactly once, and nothing else |
| Catalog.CatalogView | app/Http/Controllers/ProductController.php:51-74 | the products are exactly `ListingPage` for the requested page (entries (n-1)*12 onwards of the newest-first matches); the count of all matches, the categories (a category is offered exactly when some product has it, each once) and the echoed filters |
| Products.Index | app/Http/Controllers/ProductController.php:51-76 | the admin listing: the products are exactly `ListingPage` for the requested page, at most 12, matching and newest first; the total counts all matches; a category is offered exactly when some product has it, once; the filters are echoed |
| Shop.Index | app/Http/Controllers/ShopController.php:11-34 | the shop page: the products are exactly `ListingPage` for the requested page, at most 12, matching and newest first; the total counts all matches; categories are exactly the products' categories, without duplicates |
| Shop.SameAsAdminListing | app/Http/Controllers/ShopController.php:15-27 | the shop and the admin listing show the same products and categories for the same inputs |
| Shop.ShownIffMatches | app/Http/Controllers/ShopController.php:15-26 | a product is shown on some shop page exactly when it matches the filters |
| Products.StatCards | app/Http/Controllers/ProductController.php:22-25 | totalProducts is the product count, activeCarts the count of products with stock below 20, totalRevenue the sum of price times stock over all products (non-negative for valid rows) |
| Products.RevenueAddsUp | app/Http/Controllers/ProductController.php:25 | adding a product raises totalRevenue by exactly its price times its stock |
| Products.ProductsByCategory | app/Http/Controllers/ProductController.php:28-31 | one group per category, each with its exact positive count, ordered by descending count |
| Products.Home | app/Http/Controllers/ProductController.php:19-47 | the dashboard: the stat cards, the groups, and a distribution of the same length and order with (name, value) = (category, count) |
| Products.CategoryCountsSumToTotal | app/Http/Controllers/ProductController.php:22-31 | the per-category counts add up to totalProducts |
| Products.ProductErrors | app/Http/Controllers/ProductController.php:95-101 | each field is reported exactly when it breaks its rule: name and category required text of at most 255, description nullable text, price numeric (a number or a numeric string) of at least 0, stock an integer (a whole number or an integer string, within PHP's 64-bit integer range) of at least 0 |
| Products.LongStockRefused | app/Http/Controllers/ProductController.php:99 | a stock of twenty or more digits (no leading zero) is reported: it is beyond PHP's integer range |
| Base.LongDigitTextRefused | app/Http/Controllers/ProductController.php:99 | a digit string of twenty or more digits without a leading zero is numeric but fails `integer` |
| Products.DigitTextAccepted | app/Http/Controllers/ProductController.php:96-98 | a digits-only name such as "1984" passes the name rule, and the price text "19.99" passes with value 19.99 |
| Base.DigitStringIsTextAndNumber | app/Http/Controllers/CheckoutController.php:50 | the text "12345" passes `string|max:10`, and also `numeric` with value 12345 and `integer` with value 12345 |
| Base.DecimalTextIsNumber | app/Http/Controllers/ProductController.php:98 | the text "19.99" passes `required|numeric|min:0` with value 19.99 |
| Products.RatingFor | app/Http/Controllers/ProductController.php:109 | without a rating the stored one is the draw divided by 100, within [3.50, 5.00]; a sent number is kept |
| Products.NewProduct | app/Http/Controllers/ProductController.php:103-111 | the inserted row's name, category and description are the request's, its price and stock the numbers the request's values denote, with the given id, rating, image and time and no original price; it is well formed (price and stock non-negative, names within 255) |
| Products.Edited | app/Http/Controllers/ProductController.php:150-156 | update writes name, description, price, stock and category; id, rating, image, original price and creation time keep their values |
| Products.IndexOf | app/Http/Controllers/ProductController.php:138 | finds the position of the product with the route's id, or reports that there is none (then the route answers 404) |
| Products.ProductTable.Create | app/Http/Controllers/ProductController.php:92-116 | an invalid request is refused with its failing fields and nothing changes; otherwise, if the sent rating is text that is not numeric, a server error and nothing changes; else exactly the new row is appended and the id counter advances by one |
| Products.ProductTable.Update | app/Http/Controllers/ProductController.php:138-169 | unknown id: not found; invalid request: refused; a failed or throwing write: the error redirect (`Failed`) and nothing changes; otherwise only that row changes, to the edited row |
| Products.ProductTable.Destroy | app/Http/Controllers/ProductController.php:174-183 | unknown id: not found; a throwing delete: the error redirect (`Failed`) and nothing changes; otherwise the row with that id is removed and no other |
| Cart.CartOf | app/Http/Controllers/CartController.php:19 | the caller's cart is exactly the rows with the caller's user id |
| Cart.Load | app/Http/Controllers/CartController.php:20 | one line per row, in order, each with the product its product id names (none once that product is gone) |
| Cart.Summarize | app/Http/Controllers/CartController.php:23-28 | subtotal is the sum of quantity times price, tax is 10% of it, total is subtotal plus tax (= subtotal times 1.10) |
| Cart.SummaryNonNegative | app/Http/Controllers/CartController.php:23-28 | with non-negative amounts, 0 <= tax <= subtotal <= total |
| Cart.SummaryAdds | app/Http/Controllers/CartController.php:23-28 | the subtotal and total of two carts together are the sums of their subtotals and totals |
| Cart.SummaryExample | app/Http/Controllers/CartController.php:23-28 | 2 x 10.00 and 1 x 5.50 give subtotal 25.50, tax 2.55, total 28.05 |
| Cart.Index | app/Http/Controllers/CartController.php:17-37 | the caller's rows with their products, and the summary of exactly those lines; a row whose product is gone makes the page fail |
| Cart.ProductExists | app/Http/Controllers/CartController.php:45-47 | `required|exists:products,id` holds when the value is present, numeric, and some product has that id, and only then (the database's own comparison is approximated by `numeric`) |
| Cart.FindRow | app/Http/Controllers/CartController.php:52-55 | finds the caller's row for the product, or reports that there is none |
| Cart.AddedRows | app/Http/Controllers/CartController.php:52-59 | the found row's quantity goes up by 1 and every other row is unchanged; without one, a single row with quantity 1 and the next id is appended; afterwards the pair has a row |
| Cart.NextIdAfterAdd | app/Http/Controllers/CartController.php:52-59 | the id counter advances by the number of rows created: 1 on a first add, 0 otherwise |
| Cart.FindId | app/Http/Controllers/CartController.php:68-91 | finds the position of the cart row with the route's id, or reports that there is none (then the route answers 404) |
| Cart.AddKeepsInvariant | app/Http/Controllers/CartController.php:52-59 | adding never creates a second row for the same user and product, and keeps ids unique and quantities at least 1 |
| Cart.AddIncrements | app/Http/Controllers/CartController.php:52-59 | adding raises the caller's quantity of that product by exactly 1 and leaves every other (user, product) quantity unchanged |
| Cart.QuantityOfUniqueRow | app/Http/Controllers/CartController.php:52-58 | with one row per pair the quantity is that row's, and 0 without one (so a first add leaves quantity 1) |
| Cart.UpdatedRows | app/Http/Controllers/CartController.php:76 | only that row's quantity changes, to the given value |
| Cart.RemovedRows | app/Http/Controllers/CartController.php:91 | every row but the one with that id is kept |
| Cart.RemoveExactlyOne | app/Http/Controllers/CartController.php:91 | deleting an existing id removes exactly one row |
| Cart.ClearedRows | app/Http/Controllers/CartController.php:100 | the rows kept are exactly those of other users |
| Cart.ClearOnlyCaller | app/Http/Controllers/CartController.php:100 | after clearing the caller's cart is empty and every other user's cart is exactly as before |
| Cart.CartTable.Add | app/Http/Controllers/CartController.php:43-63 | a product id that does not exist is refused and the cart is unchanged; otherwise the table becomes the added rows |
| Cart.CartTable.Update | app/Http/Controllers/CartController.php:68-79 | unknown row: not found; another user's row: 403 before the quantity is looked at; a quantity that is not an integer of at least 1 within PHP's integer range: refused; otherwise only that quantity changes |
| Cart.CartTable.Destroy | app/Http/Controllers/CartController.php:84-93 | unknown row: not found; another user's row: 403 and nothing changes; otherwise exactly that row is removed |
| Cart.CartTable.Clear | app/Http/Controllers/CartController.php:98-102 | always succeeds, even on an empty cart; the table becomes the cleared rows |
| Orders.OrderTable.Create | app/Http/Controllers/CheckoutController.php:63-68 | appends one pending order with the next id and no payment details; items untouched |
| Orders.OrderTable.CreateItem | app/Http/Controllers/CheckoutController.php:71-75 | appends one item of an existing order with the next item id; orders untouched |
| Orders.OrderTable.Restore | app/Http/Controllers/CheckoutController.php:82-83 | rollback: the rows return to the snapshot, the id counters stay where they are |
| Orders.ItemsOf | app/Http/Controllers/OrderController.php:15 | an order's items are exactly the items carrying its id |
| Orders.ViewOf | app/Http/Controllers/OrderController.php:15 | an order carries its own items, in order, each with its product |
| Orders.OwnOrders | app/Http/Controllers/OrderController.php:14-16 | the caller's orders, as a permutation sorted newest first |
| Orders.PageOfOrders | app/Http/Controllers/OrderController.php:14-17 | page n holds entries (n-1)*10 onwards of the caller's orders sorted newest first, as many as there are up to 10 (a missing or non-positive page is page 1); all the caller's, newest first |
| Orders.History | app/Http/Controllers/OrderController.php:12-22 | entry k is the view of entry k of `PageOfOrders` for the requested page (so at most 10 orders, all the caller's, newest first), each with exactly its own items and their products |
| Orders.OwnOrderListed | app/Http/Controllers/OrderController.php:14-17 | an order is on some page of a user's history exactly when it is that user's |
| Orders.PricesAreFrozen | app/Http/Controllers/CheckoutController.php:70-76 | editing products changes nothing in the history but the products shown: items keep their quantity and price |
| Checkout.Index | app/Http/Controllers/CheckoutController.php:17-37 | an empty cart sends the caller to the shop; otherwise the cart's lines with the cart's summary, or a failure when a product is gone |
| Checkout.SameSummaryAsCart | app/Http/Controllers/CheckoutController.php:25-27 | for a cart that is not empty the checkout page equals the cart page |
| Checkout.ContactErrors | app/Http/Controllers/CheckoutController.php:43-46 | first_name and last_name required text of at most 255, email a required email of at most 255, phone required text of at most 20 |
| Checkout.AddressErrors | app/Http/Controllers/CheckoutController.php:47-50 | address, city and state required text of at most 255, zip_code required text of at most 10 |
| Checkout.ShippingErrors | app/Http/Controllers/CheckoutController.php:42-51 | each of the eight shipping fields is reported exactly when it breaks its rule |
| Checkout.DigitOnlyFieldsAccepted | app/Http/Controllers/CheckoutController.php:46-50 | a zip code "12345" and a phone "08123456789" made only of digits pass their `string` rules |
| Checkout.MissingFieldRefused | app/Http/Controllers/CheckoutController.php:42-51 | a request missing any shipping field is refused |
| Checkout.StoredAddress | app/Http/Controllers/CheckoutController.php:67 | the stored address holds every submitted field except the four card fields, with its value |
| Checkout.PlacedOrder | app/Http/Controllers/CheckoutController.php:61-68 | the order belongs to the caller, is pending, costs the cart total (subtotal plus 10% tax) and has no payment details |
| Checkout.PaymentNeverStored | app/Http/Controllers/CheckoutController.php:67 | no card field is ever part of a stored order |
| Checkout.OrderItemsFor | app/Http/Controllers/CheckoutController.php:70-76 | one item per cart line, in cart order, with that line's product and quantity and the product's price at checkout |
| Checkout.ItemsAccountForSubtotal | app/Http/Controllers/CheckoutController.php:61-76 | the items' quantities times their frozen prices add up to the cart subtotal |
| Checkout.TotalIsItemsPlusTax | app/Http/Controllers/CheckoutController.php:61-76 | the order total is its items' total times 1.10 |
| Checkout.OrderExample | app/Http/Controllers/CheckoutController.php:61 | 1 x 20.00 and 2 x 30.00 make an order of 88.00 |
| Checkout.CreateItems | app/Http/Controllers/CheckoutController.php:70-76 | without a fault, exactly the items of the cart lines are appended; orders untouched |
| Checkout.Transaction | app/Http/Controllers/CheckoutController.php:58-85 | a throwing write leaves orders, items and cart rows as they were; otherwise one order, its items, and the caller's cart deleted |
| Checkout.Store | app/Http/Controllers/CheckoutController.php:40-88 | invalid fields are refused before the cart is read; an empty cart changes nothing; with valid fields and a non-empty cart, anything short of success is the error redirect (`Failed`): a missing product or a failed write rolls back; success commits one order, its items and an emptied cart for the caller only; products are never written |

## Left out

- Rendering (Inertia pages, React components), routing and the `auth` middleware: the caller is a parameter.
- `number_format` and PHP floating point: money is exact; the two-decimal strings the pages receive are not modelled.
- `LIKE` collation (case folding) and `%`/`_` in the search term: the search is an exact substring test.
- Paginator link metadata and `withQueryString`: a catalog page is the slice of rows it shows plus the total; the order history is the slice only (its page never reads the total).
- `latest()` on equal timestamps: the database gives no order among equal `created_at` values; the model keeps table order among them.
- Form input arrives with Laravel's empty-string-to-null middleware already applied; a value is null, a string, or a JSON number.
- The `numeric` rule accepts an optional sign and decimal digits with at most one '.'; `is_numeric`'s exponents ("1e3") and leading or trailing whitespace are not modelled, so such strings are refused here.
- The `integer` rule accepts an optional sign and digits without a leading zero, within PHP's 64-bit range; other forms `FILTER_VALIDATE_INT` accepts (surrounding whitespace) are not modelled.
- Laravel's TrimStrings middleware is taken as already applied: names, addresses and search terms arrive trimmed and are stored or matched as they arrive; `required` still treats a blank string as missing.
- The `email` rule is approximated by one '@' with text on both sides and no blank.
- Products.StatCards: the number of users is a parameter; the `users` table is not part of this model.
- Products.RatingFor: `rating` is not validated; a non-numeric text is assumed to make the insert fail (a server error), and a numeric value is assumed to fit the `rating` column. Both depend on the column type and the database's strict mode, which are not part of this model.
- Cart.ProductExists: `exists:products,id` compares in the database, whose type coercion can accept texts such as "5e0" (SQLite) or "5abc" (lax MySQL); the model's `numeric` test refuses them.
- Products.ProductTable.Create: the random rating draw and the random placeholder image are parameters; an `image_url` sent as a number is replaced by the placeholder.
- Products.ProductTable.Update: a failed or throwing write is the `saved` parameter; both end in the same error redirect.
- Orders.OrderTable.Restore: whether a failed insert still consumes an auto-increment id depends on the database; the model only keeps the counters from going back.
- What the database does with cart rows or order items whose product is deleted is not part of this model: such rows stay and are shown without a product (cart and checkout pages then fail).
- Concurrency: two simultaneous checkouts or adds for the same user are not modelled; each request runs alone.
- Orders after placement (status changes, payment details) are not written by these controllers.
