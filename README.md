# Gujarat Craft marketplace core in Dafny

This project models the core of the Gujarat Craft Django marketplace. Sellers list handicraft products, which staff approve or reject. Buyers keep a cart and check it out as one cash-on-delivery order. Buyers who have bought a product may review it. Two template filters turn video links into embeddable player URLs and turn a username into a two-letter avatar label.

The modules:

- `Models` (`models.dfy`) covers the entities of `store/models.py`. It includes the approval status and the review, which the views and the admin use but `store/models.py` does not declare. It also has the two `get_total_price` helpers. Money is in integer cents and the rating is in hundredths.
- `Text` (`text.dfy`) covers the Python string operations the filters rely on: `in`, `split(sep)[0]`, `split(sep)[1]`, `strip()` and `upper()`.
- `VideoFilters` (`video_filters.dfy`) covers `youtube_embed_url` and `user_initials`.
- `Carts` (`carts.dfy`) covers the cart table as a sequence of lines, newest first, and what `add_to_cart`, `update_cart` and `remove_from_cart` do to it.
- `Checkout` (`checkout.dfy`) specifies `buy_now` as functions:
  - the checks in the view's order;
  - the stock scan, which is also a loop method;
  - the cart total;
  - the price snapshot of the order items;
  - the sale applied to every product;
  - the order-number format.
- `Catalog` (`catalog.dfy`) covers:
  - the product form's effect on a listing in `add_product` and `edit_product`;
  - the visibility rule of `product_detail`;
  - the purchase-based review gate and the upsert of a review.
- `Marketplace` (`store.dfy`) defines the class `Store`. Its fields are the product, cart, order and review tables. Each method is one POST request, proved against the functions above. Every method keeps `Valid()`, which is the conjunction of:
  - products are valid;
  - cart lines are unique per (user, product), have a quantity of at least 1 and name listed products;
  - orders have a well-formed number and a non-negative total equal to the sum of their items;
  - reviews are filed under their (user, product) pair, one per pair, and have a rating from 1 to 5.

  A refused request leaves every table unchanged.

## Model

| member | source | states |
|---|---|---|
| Models.DefaultProduct | store/models.py:35-53 | A new product has quantity 0, total sells 0, rating 0, is in stock, is not featured and is pending; it satisfies the field constraints |
| Models.LineTotal | store/models.py:99-100 | A cart line costs quantity times the product's current price; it is non-negative for valid inputs and zero when either factor is zero |
| Models.ItemTotal | store/models.py:158-159 | An order item costs its quantity times its own stored price |
| Models.LineTotalFollowsPrice | store/models.py:99-100 | Changing the product's price changes a cart line's total by quantity times the price difference |
| Models.ItemTotalIgnoresProduct | store/models.py:158-159 | An order item priced at checkout keeps its total when the product's price later changes, while the cart line's total moves with the price |
| Text.Before | store/templatetags/video_filters.py:14 | `split(sep)[0]` is the prefix of the string in which no occurrence of the separator starts (even one that runs past the prefix), ending where the first occurrence starts; it is the whole string when the separator is absent |
| Text.Segment | store/templatetags/video_filters.py:14 | `split(sep)[1]` starts right after the first occurrence of the separator and ends at the end of the string or where the next occurrence starts, with no occurrence starting in between |
| Text.BeforeTwoChars | store/templatetags/video_filters.py:31 | Cutting at '?' and then at '/' keeps exactly the text before the first '?' or '/' |
| Text.Strip | store/templatetags/video_filters.py:44 | `strip()` is a slice of the string with only white space before and after it, has no white space at either end, and is empty exactly when the string is all white space |
| Text.StripPadded | store/templatetags/video_filters.py:44 | White space added around a string does not survive `strip()` |
| Text.Upper | store/templatetags/video_filters.py:44 | `upper()` keeps the length, maps each ASCII lower-case letter to the upper-case letter 32 code points below it and keeps every other character |
| VideoFilters.EmbedUrl | store/templatetags/video_filters.py:6-35 | An empty or missing URL gives ""; a watch URL gives the embed prefix plus the `v=` value cut at '&'; a youtu.be URL gives the embed prefix plus the id cut at '?'; embed URLs and non-video URLs come back unchanged; a Vimeo URL with `/video/` gives the player prefix plus the id cut at '?'; any other Vimeo URL gives the player prefix plus the first path segment |
| VideoFilters.PlayerBranchUnreachable | store/templatetags/video_filters.py:24-28 | Every URL containing `/player.vimeo.com/video/` also contains `/video/`, so the branch that returns such a URL unchanged is never taken |
| VideoFilters.UserInitials | store/templatetags/video_filters.py:38-50 | The label has one or two characters; it is "U" exactly when there is no user or the username is blank; otherwise it is the first two characters of the stripped, upper-cased name, or its single character twice |
| VideoFilters.InitialsIgnorePadding | store/templatetags/video_filters.py:44 | White space around a username does not change the label |
| VideoFilters.InitialsIgnoreCase | store/templatetags/video_filters.py:44 | Upper-casing a username does not change the label |
| Carts.FindLine | store/models.py:92-93 | The (user, product) key locates the only line for that pair, or none |
| Carts.AddLineEffect | store/views.py:433-441 | Adding q accumulates on the (user, product) line or creates it with q, keeps keys unique, and leaves every other line's quantity unchanged |
| Carts.SetLineEffect | store/views.py:468-475 | Updating sets the line's quantity when positive and otherwise removes the line, so that no line for the pair is left; other lines are unchanged and the cart stays valid |
| Carts.DropLineEffect | store/views.py:480-486 | Removing deletes exactly the (user, product) line and keeps the cart valid |
| Carts.AddToCartAsWritten | store/views.py:415-446 | The view refuses a missing, unapproved or own product; otherwise it adds whatever quantity was posted, and the only refusal left is the database's when the line would go below zero |
| Carts.AddToCartAsWrittenAcceptsZero | store/views.py:430-441 | Posting quantity 0 for a product not yet in the cart creates a line of quantity 0, which breaks the cart's quantity >= 1 constraint |
| Carts.AddToCart | store/views.py:415-446 | Each refusal happens exactly under its condition, a quantity below 1 is refused, and the add succeeds exactly when all four checks pass; an accepted add is the view's own add, keeps the cart valid, adds q to that line and changes no other line |
| Checkout.UserLines | store/views.py:553 | The buyer's cart is exactly the lines whose user is the buyer |
| Checkout.ClearedCart | store/views.py:632 | After clearing, the buyer has no lines and every other user's lines are as before |
| Checkout.FilterKeepsValid | store/models.py:88-94 | Splitting a valid cart by user keeps both parts valid, and the buyer's lines name distinct products |
| Checkout.Shortages | store/views.py:587-591 | Every line whose product has less stock than requested or is out of stock is flagged, and only such lines are flagged |
| Checkout.CollectShortages | store/views.py:587-591 | The loop collects exactly the shortages specified by Shortages |
| Checkout.CheckoutRefusal | store/views.py:553-598 | Checks run in the view's order: empty cart, a line the buyer sells, a missing address or pin code, then insufficient stock, whose error carries exactly the scan's list of shortages; checkout proceeds exactly when all of them pass |
| Checkout.SellerCannotBuyOwn | store/views.py:559-562 | A cart holding one of the buyer's own products is always refused as a self-purchase |
| Checkout.CartTotal | store/views.py:564 | The amount charged is the sum of the lines' totals and is non-negative for valid lines |
| Checkout.Snapshot | store/views.py:616-622 | Each order item copies its line's product and quantity and the product's price at checkout |
| Checkout.OrderTotalMatchesItems | store/views.py:564-622 | The order's items add up to the total it was charged |
| Checkout.Sold | store/views.py:624-629 | A sale lowers quantity and raises total sells by the line's quantity, conserving their sum; the product becomes out of stock when the quantity reaches 0 or below and nothing else changes |
| Checkout.AfterSaleSold | store/views.py:616-629 | Each product in the cart ends up sold once by its own line's quantity |
| Checkout.AfterSaleUntouched | store/views.py:616-629 | Products outside the cart are unchanged |
| Checkout.SaleEffect | store/views.py:624-629 | Per product: quantity plus total sells is conserved, and the quantity drops by the line quantity for cart products and by 0 for others |
| Checkout.SaleKeepsProductsValid | store/views.py:587-629 | After a checkout that passed the stock check, no quantity is negative and a sold product is out of stock exactly when none is left |
| Checkout.OrderNumber | store/views.py:601 | The order number is "ORD" followed by ten characters from A-Z and 0-9, 13 in all |
| Checkout.OrderNumberOnto | store/views.py:601 | Every string of that format can be drawn |
| Checkout.PlacedOrder | store/views.py:604-622 | The recorded order is the buyer's, with the posted address, pin code and payment method, confirmed, charged the cart total, and its items copy the lines at the prices of the moment |
| Catalog.NewListing | store/views.py:316-319 | A new listing takes the form's fields, belongs to the posting seller and is pending |
| Catalog.Edited | store/views.py:358-362 | An edit takes the form's fields, keeps seller, sales and rating, and resets approval to pending |
| Catalog.EditHidesListing | store/views.py:361 | After an edit only the product's seller can see it, and it leaves the listing pages |
| Catalog.ApprovalDecidesVisibility | store/views.py:164-175 | An approved product is visible to everyone; a rejected or pending one only to its seller |
| Catalog.BrowsableIsVisible | store/views.py:20-30 | What the listing pages show, anyone can open |
| Catalog.HasPurchased | store/views.py:196-201 | True exactly when an order of the user that is confirmed, shipped or delivered holds an item for the product |
| Catalog.IneligibleOrdersDoNotCount | store/views.py:196-201 | A pending or cancelled order never opens the review gate |
| Catalog.PurchaseOpensGate | store/views.py:196-202 | A confirmed, shipped or delivered order holding the product opens the gate for its buyer |
| Catalog.UpsertEffect | store/views.py:195-211 | Saving a review keeps one review per (user, product), replaces the user's earlier review instead of adding one, and keeps every other review |
| Marketplace.CheckoutKeepsTablesValid | store/views.py:551-642 | A checkout that passes its checks leaves all tables valid |
| Marketplace.SoldStockValid | store/views.py:587-629 | Selling off a cart that passed the stock check leaves every product valid |
| Marketplace.PlacedOrderWellFormed | store/views.py:601-622 | A placed order has a well-formed number and a non-negative total that its items add up to |
| Marketplace.CheckoutOpensReviews | store/views.py:196-202 | After a checkout the buyer may review every product that was in their cart |
| Marketplace.Store.constructor | store/models.py:84-159 | An empty store is valid |
| Marketplace.Store.CartAmount | store/views.py:450-459 | A user's cart total is never negative, and it is 0 for an empty cart |
| Marketplace.Store.Detail | store/views.py:164-175 | The detail page shows a product exactly when it is approved or the viewer is the seller who owns it; otherwise it is a 404 |
| Marketplace.Store.AddProduct | store/views.py:296-335 | A non-seller is refused, then an invalid form, then a listing without images; it succeeds exactly when all three checks pass, and then a fresh product is added as pending and nothing else changes |
| Marketplace.Store.EditProduct | store/views.py:347-371 | A non-seller is refused, a product the actor does not own is a 404, and an invalid form is refused; it succeeds exactly when the owner posts a valid form, and then the product takes the form and goes back to pending |
| Marketplace.Store.ApproveProduct | store/views.py:671-683 | Only staff or a superuser may approve; a missing product is a 404; staff approving an existing product always succeeds, and from any prior state the product becomes approved, so approving twice is the same as once |
| Marketplace.Store.RejectProduct | store/views.py:686-698 | Only staff or a superuser may reject; a missing product is a 404; staff rejecting an existing product always succeeds, and from any prior state the product becomes rejected |
| Marketplace.Store.AddToCart | store/views.py:415-446 | The cart becomes the checked add's result; a missing quantity field means 1; a refusal changes nothing |
| Marketplace.Store.UpdateCart | store/views.py:462-477 | A line that is not the user's is a 404; an existing line is always updated: its quantity is overwritten when positive and the line is deleted otherwise |
| Marketplace.Store.RemoveFromCart | store/views.py:480-486 | A line that is not the user's is a 404; an existing line is always removed, and exactly that line goes |
| Marketplace.Store.BuyNow | store/views.py:551-642 | Refused exactly when a check fails, with that check's error and no change. On success the order is recorded with the cart total and snapshot prices, stock is sold off, the buyer's cart is emptied, other carts are unchanged, no bought product is the buyer's own, and the buyer may now review each product bought |
| Marketplace.Store.CheckRefusal | store/views.py:553-598 | The view's checks, run in order with the stock scan loop, give exactly CheckoutRefusal |
| Marketplace.Store.PlaceOrder | store/views.py:601-632 | The success path records the placed order, applies the sale to the stock as loaded and clears the buyer's cart |
| Marketplace.Store.RecordSale | store/views.py:616-629 | The item loop produces the price snapshot and sells each product once, each read as loaded before the loop |
| Marketplace.Store.SubmitReview | store/views.py:164-211 | A product the viewer cannot see is a 404; without an eligible purchase, or for one's own product, it is refused; a rating outside 1 to 5 is refused; the submission succeeds exactly when all checks pass, and then the review is upserted |

## Left out

- Rendering, redirects, flash messages, templates and GET requests are not modelled. Each method models the POST branch of its view. A refusal is modelled as an error value, with the store unchanged.
- Authentication is not modelled. `@login_required` is the caller passing a user, and an anonymous viewer is `None`.
- The database is modelled by sequences and maps. A cart line is addressed by its (user, product) pair instead of its row id. The pair is unique per `unique_together`, so the two are equivalent.
- Query ordering is partly modelled. New cart lines go first, as with `-created_at`. Orders are appended.
- Randomness is not modelled. The ten random choices of the order number are the `draws` parameter. Order-number collisions against the `unique=True` column are not modelled.
- Dates are not modelled: the delivery date is wall-clock time.
- Concurrency is not modelled. The model is sequential, so it cannot express the race between the stock check and the decrement.
- Image and video uploads are not modelled. The only part kept is the "at least one image" check, as an image count.
- Not modelled:
  - `add_category`;
  - `delete_product` and its cascading deletes;
  - the wishlist views;
  - `home`, `search_products` and `category_products`, beyond the `Browsable` predicate;
  - forms, URLs, admin, `setup_categories.py` and `static/js/script.js`.
- Decimal arithmetic is not modelled beyond integer cents.
- Marketplace.Store.AddProduct: the product form is valid exactly when price and quantity are non-negative. The other field checks of the form (required text, the category choice) are not modelled.
- Text.Upper: `upper()` maps ASCII letters only. Python's full Unicode case mapping, which can change a string's length, is not modelled.
- Marketplace.Store.AddToCart: a quantity field that is not an integer (a `ValueError` in the view) is not modelled. The posted quantity is an `Option<int>`.
- Marketplace.Store.AddToCart runs the corrected add (`Carts.AddToCart`), so the store's invariant that every cart line has quantity >= 1 holds in the model. The program as written can break it with a posted quantity of 0 (see Findings).
- Column limits are not modelled. Integers are unbounded, so the model ignores the 2147483647 ceiling of a `PositiveIntegerField` (cart, stock, sales and order-item quantities) and the ten digits of a `DecimalField(max_digits=10, decimal_places=2)` (price, order total, item price). The database refusing a value over these limits is not a branch of the model. Its refusal of a negative quantity is modelled only for `add_to_cart`, as `StorageRejected`.
- Payment method: only `cash_on_delivery` is modelled. The view stores whatever the form posts without checking it against the choices.
- `add_to_cart` refuses a product that is not approved (store/views.py:421). `buy_now` never checks approval again, so a product rejected after it was added to a cart can still be bought, and the model follows `buy_now`.
- Checkout's second own-product check (store/views.py:581-584) repeats the first on the same cart, so in a sequential model it can never fire. It is not a separate branch.
- store/models.py and store/forms.py declare neither `Review` nor `ReviewForm`, although store/views.py:14-15 imports both. The model declares the review as one per (user, product), with a rating from 1 to 5.
- The product rating is declared within [0, 5] but is never updated by the modelled views.

## Findings

| source | as written | input that shows it | evidently intended | confidence | as-written member | corrected member |
|---|---|---|---|---|---|---|
| store/views.py:430-441 | `add_to_cart` creates or increments the line with the posted quantity and never checks it. `MinValueValidator(1)` on the quantity field is not run on `save()` | POST `quantity=0` for an approved product of another seller that is not yet in the cart: the cart gets a line of quantity 0 | refuse quantities below 1 so that every cart line keeps quantity >= 1 (store/models.py:88) | not executed | Carts.AddToCartAsWritten, Carts.AddToCartAsWrittenAcceptsZero | Carts.AddToCart |
