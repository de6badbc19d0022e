# bfhl-store core, modelled in Dafny

This project models the core of the bfhl-store storefront: a NestJS backend and a Next.js
frontend. It covers the following parts.

- **Coupon service** (`Coupons`): the coupon table keyed by document id, with unique codes.
  `check` tries four rejection rules in order. `incrementUsage` bumps the usage counter.
  `create`, `findOne`, `update` and `remove` work on the table.
- **Order service** (`Orders`): re-checks the client's coupon and counts its use. The
  accepted discount replaces the client's, and the order is saved as `pending`. The use is
  counted before the save, so a rejected save leaves a use that no stored order accounts
  for; the model states that case too.
- **User and auth services** (`Users`, `Auth`):
  - registration with a hashed password and the forced role `user`;
  - the e-mail and id finders;
  - OTP registration: a six-digit code is stored and mailed, then verified, deleted and
    followed by the creation of the user;
  - credential checking.
- **Cart** (`Cart`, `CartPage`): the persisted cart store with add, remove, update, clear
  and total. The cart page's quantity handler, number input, trash button and checkout
  guard.
- **Product store and catalogue** (`ProductsStore`, `Listing`, `ProductFilters`,
  `ProductGrid`, `Utils`):
  - the client product store;
  - the four-stage filter pipeline of the products page (search, category, price, rating);
  - the price bounds and category options;
  - the filter panel;
  - the stable sort of the product grid;
  - the text, stock and price helpers.
- **Admin pages** (`AdminProducts`, `AdminOrders`):
  - search and pagination: page count, page slice, the row of page links with ellipses;
  - row selection, deletion, previous/next and page size;
  - the order search by shipping e-mail and its notice.

Shared modules:
- `Wrappers`: `Option` and `Result`.
- `Seqs`: an order-preserving `filter`, `find`, subsequences and distinctness.
- `Text`: `toLowerCase` and `toUpperCase`, JavaScript `trim` and `includes`.
- `Catalog`: the `Product` record.

Modelling conventions:
- The database, the mailer, `fetch` and the random generator become parameters of the
  methods that use them. The calls whose failure the source handles or that the model
  follows through get a `bool` parameter for their success: the user lookup and save, the
  OTP store, the mailer, the order save and the admin delete. The product fetch is an
  optional response. A fresh document id is a string parameter; the OTP number is the
  value `randomInt` drew.
- The clock is an integer `now`.
- bcrypt is a fixed function `hash` on the user service.
- Money is an exact `real`.
- A state that the source updates in place is a class with `seq`, `set` or `map` fields.
  This covers the services, the zustand stores and the React component state. Pure
  expressions are functions.

## Model

| member | source | states |
|---|---|---|
| Seqs.FindFirst | frontend/hooks/useCart.tsx:29 | `find` returns an element that satisfies the condition, or none iff no element does |
| Seqs.FilterNone | frontend/hooks/useCart.tsx:51 | a condition no element meets selects nothing |
| Seqs.Filter | frontend/hooks/useCart.tsx:51 | `filter` keeps exactly the elements satisfying the condition and never lengthens the list |
| Seqs.FilterIsSubseq | frontend/hooks/useProductsStore.ts:33 | `filter` keeps the survivors in their original order |
| Seqs.FilterFilter | frontend/app/products/page.tsx:78-108 | two successive filters are one filter by the conjunction of their conditions |
| Seqs.FilterKeepsDistinctBy | frontend/hooks/useCart.tsx:51 | filtering a list whose keys are distinct keeps them distinct |
| Text.TrimStart | backend/src/coupans/coupans.service.ts:53 | `trim` removes only white space from the front, and stops at the first other character |
| Text.TrimEnd | backend/src/coupans/coupans.service.ts:53 | `trim` removes only white space from the back, and stops at the last other character |
| Text.TrimPadded | backend/src/coupans/coupans.service.ts:53 | surrounding white space does not change the result of `trim` |
| Text.TrimMap | backend/src/coupans/coupans.service.ts:53 | changing letter case and trimming commute |
| Text.ContainsEmpty | frontend/app/admin/page.tsx:67-72 | every text `includes` the empty string |
| Coupons.Decide | backend/src/coupans/coupans.service.ts:55-82 | a coupon is valid iff it was found, is not expired, meets the minimum order and is below its usage limit. A rejection reports the first failing rule in the order not found, expired, below minimum, usage limit, with discount 0. Acceptance grants the coupon's discount |
| Coupons.ByCodeFinds | backend/src/coupans/coupans.schema.ts:8 | with unique codes, the lookup by code returns the one document holding it |
| Coupons.IncrementedTableSpec | backend/src/coupans/coupans.service.ts:85-92 | `$inc` raises `usedCount` of the documents holding the code by one, leaves every other document alone and keeps codes unique |
| Coupons.IncrementOne | backend/src/coupans/coupans.service.ts:85-92 | with unique codes, the increment changes exactly the one document holding the code |
| Coupons.IncrementMissing | backend/src/coupans/coupans.service.ts:85-92 | incrementing a code no document holds changes nothing |
| Coupons.FromDraft | backend/src/coupans/coupans.service.ts:19-20 | a created coupon keeps the request's code and discount; a missing `usedCount` becomes 0 |
| Coupons.CouponService.Create | backend/src/coupans/coupans.service.ts:18-22 | stores the request under a fresh id, code as given. An empty code is refused, and so is a code already stored (unique index); otherwise the insert succeeds. The table stays code-unique |
| Coupons.CouponService.CreateNormalized | backend/src/coupans/coupans.service.ts:18-22 | the corrected create: stores the trimmed, upper-cased code under the same refusals |
| Coupons.CouponService.FindOne | backend/src/coupans/coupans.service.ts:28-32 | the document with the id, or not found |
| Coupons.CouponService.Update | backend/src/coupans/coupans.service.ts:34-40 | unknown id: not found. Otherwise the patched document is refused with MissingCode iff its code is empty, with DuplicateCode iff another document holds its code, and stored otherwise: the given fields are overwritten and the rest of the table is unchanged. Any failure leaves the table unchanged, and codes stay unique |
| Coupons.CouponService.Remove | backend/src/coupans/coupans.service.ts:42-45 | deletes exactly the document with the id, or reports not found and changes nothing |
| Coupons.CouponService.Check | backend/src/coupans/coupans.service.ts:47-83 | the verdict is the rules applied to the coupon found under the trimmed, upper-cased code |
| Coupons.CouponService.IncrementUsage | backend/src/coupans/coupans.service.ts:85-92 | one more use is counted for the coupon whose code equals the normalized code, and nothing else changes |
| Coupons.UpperCharAbsorbs | backend/src/coupans/coupans.service.ts:53 | upper-casing forgets any earlier case change of a character |
| Coupons.RejectionMessages | backend/src/coupans/coupans.service.ts:55-79 | the refusals for a missing, an expired and an exhausted coupon carry the source's three messages, and no two refusals share one |
| Coupons.TrimOfUpperTrimmed | backend/src/coupans/coupans.service.ts:53 | a trimmed and upper-cased code has nothing left to trim |
| Coupons.UpperIdempotent | backend/src/coupans/coupans.service.ts:53 | upper-casing twice is upper-casing once |
| Coupons.NormalizeIdempotent | backend/src/coupans/coupans.service.ts:53 | trimming and upper-casing twice is doing it once |
| Coupons.NormalizeIgnoresCase | backend/src/coupans/coupans.service.ts:53 | codes differing only in letter case normalize alike |
| Coupons.NormalizeIgnoresPadding | backend/src/coupans/coupans.service.ts:53 | codes differing only in surrounding white space normalize alike |
| Coupons.CheckIgnoresCaseAndPadding | backend/src/coupans/coupans.service.ts:52-54 | `check` answers the same for a code sent in lower case with white space around it |
| Coupons.UnnormalizedCodeUnreachable | backend/src/coupans/coupans.service.ts:18-22 | a coupon stored with a code that is not trimmed and upper-case is never found by `check` or incremented, whatever code is sent |
| Coupons.ExhaustedStaysRefused | backend/src/coupans/coupans.service.ts:72-78 | a coupon at its usage limit is refused at any time and subtotal, and stays refused after more increments |
| Coupons.LowercaseCodeNotFound | backend/src/coupans/coupans.service.ts:18-22 | a coupon created with code "save10" is not found when "save10" is sent |
| Coupons.NormalizedCodeReachable | backend/src/coupans/coupans.service.ts:52-54 | a coupon stored in normalized form is found, and incremented, for the code as typed, in lower case, or padded |
| Orders.Redemptions | backend/src/orders/orders.service.ts:17-25 | the number of orders redeeming a code is at most the number of orders |
| Orders.NoRedemptions | backend/src/orders/orders.service.ts:17-25 | the count of redemptions is 0 iff no order carries the code |
| Orders.FindById | backend/src/orders/orders.service.ts:47-51 | the stored order with the id, or none iff no order has it |
| Orders.OrderService.Create | backend/src/orders/orders.service.ts:16-39 | without a coupon, the order keeps the client's discount and the coupons are untouched. With one, `check` decides against shipping cost plus amount/100. A refusal is a BadRequest carrying the rule and changes nothing. Acceptance increments that coupon and stores its discount. A pending order with amount/100 is then saved; a rejected save stores nothing and returns SaveFailed, with the increment kept. When the save succeeds the counters rise by exactly the redemptions of the added orders; in every case they rise by at least that. A respected usage cap stays respected |
| Orders.OrderService.FindAll | backend/src/orders/orders.service.ts:42-44 | every stored order, in insertion order |
| Orders.OrderService.FindOne | backend/src/orders/orders.service.ts:47-51 | succeeds iff an order has the id, with that order; otherwise NotFound |
| Orders.DistinctAppend | backend/src/orders/orders.service.ts:38 | appending an order with a fresh id keeps ids distinct |
| Orders.NothingRedeemed | backend/src/orders/orders.service.ts:22 | a refused order leaves every counter where it was |
| Orders.AcceptedIsFound | backend/src/orders/orders.service.ts:18-23 | an accepted coupon is the one document holding the code, unexpired, above minimum and below its limit |
| Orders.RedeemedOnce | backend/src/orders/orders.service.ts:23 | one redeeming order raises exactly its coupon's counter by one, within the cap |
| Orders.AccountsOne | backend/src/orders/orders.service.ts:23 | raising the matched document by one accounts for a single redeeming order, document by document |
| Orders.IncrementKeepsCap | backend/src/orders/orders.service.ts:18-23 | incrementing a document below its usage limit keeps every document within its limit |
| Orders.RedemptionsSingle | backend/src/orders/orders.service.ts:17 | a single order redeems a code once iff it carries it |
| Orders.RedemptionsAppend | backend/src/orders/orders.service.ts:38 | redemption counts add up over concatenated order lists |
| Orders.AccountsIsAtLeast | backend/src/orders/orders.service.ts:16-39 | exact accounting is in particular accounting from below |
| Orders.OverCounted | backend/src/orders/orders.service.ts:23-38 | a use counted for an order whose save is rejected: the table accounts from below for no stored order, and the coupon counts one use more than the stored orders |
| Orders.FailedSaveBreaksAccounts | backend/src/orders/orders.service.ts:23-38 | after a rejected save, the counters no longer match the stored redemptions exactly |
| Orders.AccountsAtLeastCompose | backend/src/orders/orders.service.ts:16-39 | over a run of calls with failed saves, each counter rises by at least the number of stored orders that redeemed it |
| Orders.AccountsCompose | backend/src/orders/orders.service.ts:16-39 | over a run of calls, each coupon's counter rises by exactly the number of orders that redeemed it |
| Orders.NoCouponRedeemsNothing | backend/src/orders/orders.service.ts:32 | an order without a (non-empty) coupon stores none and counts no use |
| Users.FindEmail | backend/src/users/users.service.ts:21 | the user registered under the e-mail, or none iff no user has it |
| Users.FindId | backend/src/users/users.service.ts:53 | the user with the id, or none iff no user has it |
| Users.UserService.Create | backend/src/users/users.service.ts:18-40 | a lookup failure or a save failure gives "Error creating user"; a taken e-mail gives "Email already exists"; otherwise a user with the hashed password and role `user` is appended and is what the e-mail then finds. E-mails and ids stay distinct |
| Users.UserService.FindByEmail | backend/src/users/users.service.ts:42-49 | succeeds with the user or with no user; a database failure gives "Error fetching user by email" |
| Users.UserService.FindById | backend/src/users/users.service.ts:51-61 | the user, "User not found", or "Error fetching user by ID" |
| Users.CreatedIsFound | backend/src/users/users.service.ts:21-34 | after registering a fresh e-mail, it finds the new user and other e-mails find what they found before |
| Auth.DecimalString | backend/src/auth/auth.service.ts:73 | `toString` of a number: non-empty, decimal digits only, no leading zero |
| Auth.DecimalRoundTrip | backend/src/auth/auth.service.ts:73 | reading the digits back gives the number, so distinct draws give distinct codes |
| Auth.SixDigits | backend/src/auth/auth.service.ts:73 | a draw from [100000, 1000000) is a six-digit code |
| Auth.LengthOfDecimal | backend/src/auth/auth.service.ts:73 | a number in [10^k, 10^(k+1)) has k+1 digits |
| Auth.FirstMatch | backend/src/auth/auth.service.ts:95-97 | `findOne({ email, code })` finds a record iff one with that e-mail and code is stored |
| Auth.AuthService.RegisterWithOtp | backend/src/auth/auth.service.ts:68-87 | a registered e-mail is refused, while a failed lookup does not stop the registration; a store failure stores and sends nothing; otherwise the six-digit code is stored, then mailed, or "Failed to send OTP email"; the user table is untouched |
| Auth.AuthService.VerifyOtp | backend/src/auth/auth.service.ts:89-119 | no matching record: "Invalid or expired OTP" and nothing changes. Otherwise exactly one matching record is deleted, `users.create` runs with role `user`, and its answer is wrapped in a successful "Registration successful": "Error creating user" on a failed lookup or save, "Email already exists" for a taken e-mail, otherwise the new user with the hashed password, appended to the table |
| Auth.AuthService.ValidateUserAsWritten | backend/src/auth/auth.service.ts:26-42 | "User not found" on a failed or empty lookup, "Invalid credentials" on a hash mismatch, otherwise the spread of the found document, which still carries the stored password hash |
| Auth.SpreadRevealsHash | backend/src/auth/auth.service.ts:39-41 | the spread result tells apart accounts that differ only in their hash, so it carries the hash; the client view of the same accounts is identical |
| Auth.AuthService.ValidateUser | backend/src/auth/auth.service.ts:26-42 | the corrected `validateUser`: the same refusals, otherwise the user without the password; success implies a stored user with that e-mail and password hash |
| Auth.DeleteAt | backend/src/auth/auth.service.ts:102 | deleting the found record removes one copy of it and nothing else |
| Auth.SingleUse | backend/src/auth/auth.service.ts:95-102 | a code stored once verifies at most once |
| Cart.FindItem | frontend/hooks/useCart.tsx:29 | `find` returns an entry for the product, or none iff the cart has none |
| Cart.CartStore.AddToCart | frontend/hooks/useCart.tsx:27-46 | an existing product gets one more unit in place; a new one is appended with quantity 1; the total rises by one unit price; products stay distinct |
| Cart.CartStore.RemoveFromCart | frontend/hooks/useCart.tsx:48-53 | no entry for the product remains, the others keep their order, and the total drops by the removed entry's line total |
| Cart.CartStore.UpdateQuantity | frontend/hooks/useCart.tsx:55-62 | the product's entry gets the new quantity unvalidated; length, order and other entries are unchanged |
| Cart.CartStore.ClearCart | frontend/hooks/useCart.tsx:64-66 | the cart is empty and its total is 0 |
| Cart.AddToCartIfAuthenticated | frontend/hooks/useCart.tsx:88-103 | a signed-out user is sent to /login and the cart is unchanged. Otherwise the store's `addToCart` runs: a product in the cart gets one more unit in place, a new one is appended with quantity 1, and the total rises by one unit price |
| Cart.BumpExisting | frontend/hooks/useCart.tsx:31-39 | one more unit of a product in the cart keeps products distinct and raises the total by its unit price |
| Cart.AppendNew | frontend/hooks/useCart.tsx:40-45 | a new entry with one unit keeps products distinct and raises the total by its price |
| Cart.IndexOf | frontend/hooks/useCart.tsx:29 | a found product has a position in the cart |
| Cart.FindIsAt | frontend/hooks/useCart.tsx:29 | in a cart with distinct products, `find` returns the product's one entry |
| Cart.BumpedIsUpdateAt | frontend/hooks/useCart.tsx:34-38 | the `map` of `addToCart` changes exactly the product's one entry |
| Cart.WithQuantityIsUpdateAt | frontend/hooks/useCart.tsx:58-60 | the `map` of `updateQuantity` changes exactly the product's one entry |
| Cart.TotalAppend | frontend/hooks/useCart.tsx:68-74 | the total of two lists together is the sum of their totals |
| Cart.TotalUpdateAt | frontend/hooks/useCart.tsx:68-74 | replacing one entry changes the total by the difference of the line totals |
| Cart.TotalPartition | frontend/hooks/useCart.tsx:68-74 | the total splits into the product's entries and everyone else's |
| Cart.FilterDistinctMatch | frontend/hooks/useCart.tsx:51 | in a cart with distinct products, the entries for a product are its one entry |
| CartPage.QuantityFromInput | frontend/app/cart/page.tsx:91 | `parseInt(value) \|\| 1`: NaN and 0 become 1, any other number is kept |
| CartPage.OnlyNegativeInputRemoves | frontend/app/cart/page.tsx:88-92 | from the number box, the entry is removed iff a negative number is typed |
| CartPage.HandleQuantityChange | frontend/app/cart/page.tsx:20-26 | a quantity below 1 removes the product; otherwise it becomes the entry's quantity |
| CartPage.HandleQuantityInput | frontend/app/cart/page.tsx:84-93 | a negative input removes the product; anything else sets the parsed quantity, or 1 |
| CartPage.HandleTrash | frontend/app/cart/page.tsx:100 | removes exactly that product's entry |
| CartPage.HandleCheckout | frontend/app/cart/page.tsx:28-43 | navigates to /checkout iff the user is signed in |
| ProductsStore.ProductStore.SetProducts | frontend/hooks/useProductsStore.ts:21 | replaces the catalogue only |
| ProductsStore.ProductStore.SetFilteredProducts | frontend/hooks/useProductsStore.ts:22 | replaces the shown list only |
| ProductsStore.ProductStore.UpdateProduct | frontend/hooks/useProductsStore.ts:24-29 | same length and ids; entries with the update's id become it, others stay |
| ProductsStore.ProductStore.RemoveProduct | frontend/hooks/useProductsStore.ts:31-34 | no entry with the id remains; the others stay, in order |
| ProductsStore.ProductStore.FetchProducts | frontend/hooks/useProductsStore.ts:36-57 | a successful response replaces both lists; a failed one changes nothing |
| ProductsStore.UpdateUnknownId | frontend/hooks/useProductsStore.ts:24-29 | updating an id not in the store changes nothing |
| ProductsStore.UpdateIdempotent | frontend/hooks/useProductsStore.ts:24-29 | applying the same update twice is applying it once |
| ProductsStore.RemoveAfterUpdate | frontend/hooks/useProductsStore.ts:24-34 | removing an id after updating it is removing it from the original list |
| Utils.SliceEnd | frontend/lib/utils.ts:20 | the end index `slice` uses: clipped to the length, negative counts from the back |
| Utils.TruncateTextSpec | frontend/lib/utils.ts:18-21 | short text is returned unchanged; longer text becomes its first `maxLength` characters plus "..." |
| Utils.TruncateIdempotent | frontend/lib/utils.ts:18-21 | truncating a truncated text changes nothing more |
| Utils.StatusLabelSpec | frontend/lib/utils.ts:27-31 | the returned string is "Out of Stock" iff stock ≤ 0, "Low Stock" iff 0 < stock < 10, "In Stock" iff ≥ 10, and the three labels differ |
| Utils.GetStockStatus | frontend/lib/utils.ts:27-31 | out of stock iff stock ≤ 0, low iff 0 < stock < 10, in stock iff ≥ 10 |
| Utils.ColorMatchesStatus | frontend/lib/utils.ts:33-37 | the colour is always the colour of the status |
| Utils.StatusMonotone | frontend/lib/utils.ts:27-31 | more stock never gives a worse status |
| Utils.DiscountedPriceSpec | frontend/lib/utils.ts:23-25 | 0% keeps the price, 100% gives 0; a larger discount never raises a non-negative price, and 0–100% stays within [0, price] |
| Listing.OptionalStage | frontend/app/products/page.tsx:81-94 | a stage applied under a condition is a filter whose test is vacuous when the condition is off |
| Listing.StagesAsFilters | frontend/app/products/page.tsx:77-111 | the pipeline is the four stages in order |
| Listing.ApplyFiltersIsOneFilter | frontend/components/client-productsGrid.tsx:75-105 | the four-stage pipeline is a single filter by the conjunction of the active stages |
| Listing.ApplyFiltersSpec | frontend/app/products/page.tsx:77-111 | the shown list is the catalogue's subsequence of products matching the query (if any), a selected category (if any), the inclusive price range and some selected rating (if any) |
| Listing.ShownProductsMeetFilters | frontend/app/products/page.tsx:77-111 | every shown product is in the catalogue, in range, matches the query and selected category, and rates at least the smallest selected rating |
| Listing.MinOfIsLeast | frontend/app/products/page.tsx:106 | the least selected rating is at most each selected rating |
| Listing.MinPrice | frontend/app/products/page.tsx:131 | the least price of the catalogue and one of its prices, or 0 when it is empty |
| Listing.MaxPrice | frontend/app/products/page.tsx:132 | the greatest price of the catalogue and one of its prices, or 2000 when it is empty |
| Listing.FullRangeShowsAll | frontend/components/client-productsGrid.tsx:119-120 | with the range at the catalogue's bounds and no other filter, every product is shown |
| Listing.Dedup | frontend/app/products/page.tsx:175 | `[...new Set(...)]`: each category once, and exactly the catalogue's categories |
| Listing.DedupPrefix | frontend/app/products/page.tsx:175 | first-occurrence order: the options of a prefix are a prefix of the options |
| Listing.ProductListing.constructor | frontend/app/products/page.tsx:33-38 | starts with an empty query, no categories or ratings and the range 0–2000 |
| Listing.ProductListing.ApplyFilters | frontend/app/products/page.tsx:77-111 | the shown list becomes the pipeline over the catalogue; the catalogue is untouched |
| Listing.ProductListing.HandleFilterChange | frontend/app/products/page.tsx:114-120 | records the filters only |
| Listing.ProductListing.ClearSearch | frontend/components/client-productsGrid.tsx:111-117 | empties the query and shows exactly the products meeting the other filters |
| Listing.ClearedSearchIgnoresText | frontend/app/products/page.tsx:123-129 | after clearing, a product is shown iff it meets the category, price and rating filters |
| ProductFilters.ToggleRoundTrip | frontend/components/product-filters.tsx:36-47 | checking then unchecking a value restores a selection that lacked it |
| ProductFilters.ToggleSpec | frontend/components/product-filters.tsx:59-70 | checking appends the value; unchecking removes every copy and keeps the rest in order |
| ProductFilters.FilterPanel.constructor | frontend/components/product-filters.tsx:32-34 | nothing selected, range [minPrice, maxPrice] |
| ProductFilters.FilterPanel.HandleCategoryChange | frontend/components/product-filters.tsx:36-47 | the category is toggled, the rest kept, and the emitted filters are the new state |
| ProductFilters.FilterPanel.HandlePriceChange | frontend/components/product-filters.tsx:49-57 | the first two slider values become the range; the emitted filters are the new state |
| ProductFilters.FilterPanel.HandleRatingChange | frontend/components/product-filters.tsx:59-70 | the rating is toggled, the rest kept, and the emitted filters are the new state |
| ProductGrid.CompareIsRankDifference | frontend/components/product-grid.tsx:17-29 | each comparator is the difference of a sort key |
| ProductGrid.InsertPermutes | frontend/components/product-grid.tsx:17 | one insertion step adds exactly the inserted product |
| ProductGrid.InsertSorted | frontend/components/product-grid.tsx:17 | inserting into a sorted list keeps it sorted |
| ProductGrid.InsertStable | frontend/components/product-grid.tsx:17 | an inserted product goes after every product with its key |
| ProductGrid.SortedTail | frontend/components/product-grid.tsx:17 | the tail of a sorted list is sorted |
| ProductGrid.FilterSnoc | frontend/components/product-grid.tsx:17 | the products with a key in a list are those of its front followed by its last product if it has the key |
| ProductGrid.SortPermutes | frontend/components/product-grid.tsx:17 | the sorted copy holds the same products, as many times each |
| ProductGrid.SortSorted | frontend/components/product-grid.tsx:17-29 | the sorted copy is ordered by the comparator |
| ProductGrid.SortStable | frontend/components/product-grid.tsx:17-29 | products comparing equal keep their input order |
| ProductGrid.SortSpec | frontend/components/product-grid.tsx:17-36 | same length (the displayed count), a permutation, sorted and stable |
| ProductGrid.PriceLowAscending | frontend/components/product-grid.tsx:19-20 | "price-low" gives non-decreasing prices |
| ProductGrid.PriceHighDescending | frontend/components/product-grid.tsx:21-22 | "price-high" gives non-increasing prices |
| ProductGrid.RatingDescending | frontend/components/product-grid.tsx:23-24 | "rating" gives non-increasing ratings |
| ProductGrid.OtherKeyKeepsOrder | frontend/components/product-grid.tsx:25-27 | any other key leaves the input order unchanged |
| AdminProducts.FilteredProductsSpec | frontend/app/admin/page.tsx:67-72 | the search keeps, in order, exactly the products whose name, description or category contains the query ignoring case; an empty query keeps all |
| AdminProducts.TotalPages | frontend/app/admin/page.tsx:74 | the least page count whose pages hold all rows; 0 iff there are no rows |
| AdminProducts.PageSlice | frontend/app/admin/page.tsx:75-78 | page p is the contiguous run from row (p−1)·n, at most n rows, clipped to the list |
| AdminProducts.PagesPrefix | frontend/app/admin/page.tsx:75-78 | pages 1..k together are the first k·n rows |
| AdminProducts.PagesCoverList | frontend/app/admin/page.tsx:74-78 | pages 1..totalPages together are the searched list |
| AdminProducts.PageSizes | frontend/app/admin/page.tsx:74-78 | every page before the last is full and no page up to the last is empty |
| AdminProducts.Window | frontend/app/admin/page.tsx:389-424 | one entry per page, 1..totalPages |
| AdminProducts.WindowLinks | frontend/app/admin/page.tsx:391-410 | a page gets a link iff it is the first, the last, or within one of the current page |
| AdminProducts.OneActiveLink | frontend/app/admin/page.tsx:400 | the current page's link is the only active one |
| AdminProducts.EllipsisPlaces | frontend/app/admin/page.tsx:412-421 | an ellipsis only for page 2 when current > 3 or page total−1 when current < total−2, never on a linked page |
| AdminProducts.HiddenPagesMarked | frontend/app/admin/page.tsx:389-424 | every hidden page is flagged by an ellipsis on its side of the current page |
| AdminProducts.PageIds | frontend/app/admin/page.tsx:193 | the ids of the rows on the page |
| AdminProducts.ToggledRow | frontend/app/admin/page.tsx:179-187 | the id changes membership and no other id does |
| AdminProducts.ToggleRowTwice | frontend/app/admin/page.tsx:179-187 | toggling a row twice restores the selection |
| AdminProducts.AdminProductsPage.constructor | frontend/app/admin/page.tsx:55-61 | empty search and selection, page 1, 10 rows per page |
| AdminProducts.AdminProductsPage.SetSearchQuery | frontend/app/admin/page.tsx:238 | the search text changes and the current page is kept |
| AdminProducts.AdminProductsPage.SetSearchQueryFromFirstPage | frontend/app/admin/page.tsx:238 | the corrected search change: back to page 1, so a search with matches shows some |
| AdminProducts.AdminProductsPage.ToggleSelectRow | frontend/app/admin/page.tsx:179-187 | flips one id's membership; nothing else changes |
| AdminProducts.AdminProductsPage.ToggleSelectAll | frontend/app/admin/page.tsx:189-196 | clears the selection when its size equals the page's row count, whatever ids it holds; otherwise it becomes exactly the page's ids |
| AdminProducts.AdminProductsPage.DeleteProduct | frontend/app/admin/page.tsx:148-177 | on success the product leaves the store and its id the selection, other selected ids stay; on failure nothing changes |
| AdminProducts.AdminProductsPage.Previous | frontend/app/admin/page.tsx:384 | one page back, never below 1, staying within the page count |
| AdminProducts.AdminProductsPage.Next | frontend/app/admin/page.tsx:432 | one page on, never past the last page |
| AdminProducts.AdminProductsPage.GoToPage | frontend/app/admin/page.tsx:401-404 | a page link selects that page, which is not empty |
| AdminProducts.AdminProductsPage.SetItemsPerPage | frontend/app/admin/page.tsx:244-247 | a new page size restarts at page 1 |
| AdminProducts.StalePageShowsNothing | frontend/app/admin/page.tsx:74-78 | a search whose matches fit on one page leaves any later page empty, with a single page so no pagination row |
| AdminProducts.FirstPageShowsMatches | frontend/app/admin/page.tsx:75-78 | the first page of a non-empty list shows its first rows |
| AdminOrders.FilteredOrdersSpec | frontend/app/admin/orders/page.tsx:57-64 | a blank or white-space search shows all orders; otherwise exactly the orders whose shipping e-mail contains the search ignoring case, in order |
| AdminOrders.PaddedSearchMatchesNothing | frontend/app/admin/orders/page.tsx:58-62 | the untrimmed text is matched: a search containing white space finds no e-mail without any |
| AdminOrders.SpacedSearchMisses | frontend/app/admin/orders/page.tsx:58-62 | a search with white space in it does not occur, ignoring case, in an e-mail without any |
| AdminOrders.HandleSearch | frontend/app/admin/orders/page.tsx:66-82 | a blank search only prompts; otherwise the title gives the count of shown orders and the description starts "Found " iff there are any |
| AdminOrders.ClearSearchShowsAll | frontend/app/admin/orders/page.tsx:84-86 | after clearing, every order is shown |

## Left out

- HTTP controllers, modules and guards are not part of this model. The same holds for
  JWT signing and cookies (`loginWithCookie`), `class-validator` DTOs and zod forms.
  Their bounds appear only where an operation needs them.
- MongoDB, `fetch`, nodemailer, `crypto.randomInt` and bcrypt are left out. They become
  parameters, as described above. bcrypt's salt is not modelled, and `bcrypt.compare` is
  an equality of hashes.
- Any other database call is taken as infallible: the OTP `findOne` and `deleteOne` in
  `verifyOtpAndCompleteRegistration`, every call of the coupon service, and the `check`
  and `incrementUsage` awaits of order creation. In the source the failure of one of them
  is an exception that escapes the method with nothing changed; after a failed
  `deleteOne` the OTP record simply stays.
- Coupons.CouponService.Create: the schema's `min: 0` on `discountAmount`, `usedCount`,
  `minOrderValue` and `maxUses` is not modelled, so a negative amount would be stored.
  No request carries one: the create DTO's `@Min(0)` bounds on the same fields are
  enforced by the global `ValidationPipe` before the service runs.
- Concurrency is left out. Every call runs alone, so the window between `check` and
  `incrementUsage` in `orders.service.ts` cannot be exercised.
- The OTP lifetime is a database TTL index rather than code, so no expiry is modelled.
- The catch in `verifyOtpAndCompleteRegistration` that answers "Failed to register user"
  cannot be reached, because `users.create` returns its errors rather than throwing.
- `findAll` of the coupon service is left out; it is a plain read of the table.
- `formatCurrency`, `formatDate` and the `Intl` formatting are left out, because they
  produce locale strings.
- The "Minimum order value is ₹…" message prints a number. The model carries that number
  in the rejection rather than the text.
- Toasts, routing side effects (`router.push`, URL search parameters) and rendering are
  left out. A navigation is returned as a route.
- Coupons.CouponService.Update:
  - the patch is applied only to the fields present;
  - the update DTO's own validation is not part of this model, because its file is
    missing;
  - `runValidators` is modelled only as the required and unique constraints on `code`.
- `Text.Lower` and `Text.Upper` map ASCII letters only. Unicode case mapping is not
  modelled.
- `parseInt` on the text of the number box is not modelled. The parsed value, or NaN, is
  a parameter.
- ProductFilters.FilterPanel.HandlePriceChange requires two slider values. The slider
  always supplies them; with fewer, JavaScript would read `undefined`.
- Floating-point money is left out. Prices, totals and discounts are exact reals, so the
  rounding of `amount / 100` and of the cart total is not modelled.
- Utils.TruncateTextSpec: lengths and the cut count characters. JavaScript's `length` and
  `slice` count UTF-16 code units, so for text outside the Basic Multilingual Plane (an
  emoji, say) the source can cut inside a surrogate pair where the model does not cut.
- Number widths are left out. Quantities, stock and page numbers are unbounded integers.
- The sort is modelled as a stable insertion sort. JavaScript's `Array.prototype.sort` is
  stable, and a stable sort by a key is unique, so the order matches; the algorithm
  itself does not.
- AdminProducts.AdminProductsPage.ToggleSelectAll and ToggleSelectRow: the table
  renders no check boxes that call them. They are modelled as written, without a caller.

## Findings

| source | as written | input that shows it | evidently intended | confidence | as-written member | corrected member |
|---|---|---|---|---|---|---|
| backend/src/coupans/coupans.service.ts:18-22 | `create` stores the code as sent. `check` (line 53) and `incrementUsage` (line 88) look it up trimmed and upper-cased | a coupon created with code "save10": sending "save10" gives "Coupon not found" | store the code normalized, so that every spelling the lookups accept finds it | not executed; high | Coupons.LowercaseCodeNotFound | Coupons.CouponService.CreateNormalized |
| frontend/app/admin/page.tsx:238 | typing a search keeps `currentPage` | on page 3 at 10 rows per page, a search with 4 matches gives `totalPages` 1 and an empty slice. The table says "No products found." and the pagination row is hidden | reset to page 1 when the search changes, as the page-size menu does (line 246) | not executed; medium | AdminProducts.StalePageShowsNothing | AdminProducts.AdminProductsPage.SetSearchQueryFromFirstPage |
| backend/src/auth/auth.service.ts:39-41 | `validateUser` removes `password` with an object spread of the hydrated document that `findByEmail` returns. The spread copies own properties only, and `_doc` still holds the stored hash; the controller reads `valid.data._doc` | any successful login: the result's `_doc.password` is the user's bcrypt hash | return the user without its password, as the comment on line 39 says | not executed; medium | Auth.AuthService.ValidateUserAsWritten | Auth.AuthService.ValidateUser |
