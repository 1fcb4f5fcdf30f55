# CredPOS core, modelled in Dafny

CredPOS is a point-of-sale demo for small merchants. This project models its logic:

- the three local tables of `src/utils/storage.ts`:
  - the product catalogue, with append, merge-update, delete by id and the clamped stock decrement;
  - the transaction log, where new records go first;
  - the user registry, which rejects duplicate emails and looks users up by email;
- the cashier page's add-to-cart guard, in-cart quantity and checkout sequence;
- the settlement page's per-payment-method totals and counts;
- the history page's all / today / 7-day window, its total and the row toggle;
- the products page's form check, edit submission, stock badge and name search;
- the register page's password checks and error messages.

The modules follow the program:

- `Types` holds the records of `src/types/index.ts`.
- `Catalog`, `Ledger` and `Accounts` state the table operations as functions of the stored lists.
- `Storage` holds three classes: `ProductStorage`, `TransactionStorage` and `AuthStorage`. Each keeps its list in a `seq` field, and each method updates that field as the source updates its loaded array. The method contracts tie the new list to the functions above.
- Each page has its own module: `Cashier`, `Settlement`, `History`, `ProductsPage` and `RegisterPage`.
- `Search` is the name filter that the cashier and products pages share.
- `Seqs` defines `IsSubsequence`, which every `filter` result satisfies with respect to its input.

The program reads several things from its environment. The model takes them as parameters instead:

- the current time `now`;
- local midnight `midnight`;
- generated ids;
- the integers `parseInt` produced;
- the cart's `getTotal()` value;
- the cart's `addToCart` function.

Prices, stock levels, amounts and timestamps are unbounded integers.

Checkout models a storage call that throws with the parameter `failingStep`. Step 0 is the transaction write, and step i + 1 is the stock update of cart line i.

- `transactionStorage.add` does its work inside a `setTimeout` callback, so a throw there never rejects its promise. Checkout then stays pending: nothing is written, no alert is shown and the cart stays as it was.
- `productStorage.updateStock` does its work in the promise executor, so a throw there rejects. The page catches it and shows "Gagal memproses transaksi". This makes the non-atomic window visible: the transaction stays written, the earlier decrements stay applied, and the cart stays as it was.

## Behaviour the code does not have

A reader might expect a point-of-sale system to do the following, but this code does not, and neither does the model:

- Checkout does not re-check stock when it commits, and it raises no insufficient-stock error. Stock stays at zero or above only because `updateStock` clamps it (`src/utils/storage.ts:205`).
- Checkout on an empty cart returns silently. It raises no empty-cart error.
- Adding a product checks only that the trimmed name, the price text and the stock text are non-empty. It does not check that price and stock are non-negative integers. Editing a product checks nothing.
- Clamping a cart line to the stock is left to the cart context, which is not part of this model. The page checks stock in `handleAddToCart`. It also disables the + buttons of the product grid and of the cart once the quantity reaches the stock (`src/pages/CashierPage.tsx:222` and `:312`). Those button states are display code and are not modelled.

## Model

| member | source | states |
|---|---|---|
| `Catalog.IndexOfId` | src/utils/storage.ts:179 | the result is -1 exactly when no product has the id; otherwise it is the first position holding the id |
| `Catalog.Merge` | src/utils/storage.ts:181 | each field the patch carries replaces the product's, every other field is kept; an empty patch changes nothing |
| `Catalog.MergeTwice` | src/utils/storage.ts:181 | merging the same patch a second time changes nothing more |
| `Catalog.Updated` | src/utils/storage.ts:179-183 | the length is unchanged; only the entry at `IndexOfId` (the first product with the id) gets the patch merged in; every other entry is unchanged; an unknown id leaves the list as it was |
| `Catalog.StockSold` | src/utils/storage.ts:203-207 | only the entry at `IndexOfId` (the first product with the id) changes, and only its stock, which becomes max(0, stock − quantitySold) and is never negative; ids are kept; an unknown id changes nothing |
| `Catalog.WithoutId` | src/utils/storage.ts:193 | each product whose id differs is kept as often as before, and the rest are dropped; the result is an order-preserving subsequence |
| `Catalog.DeleteAbsentIsNoop` | src/utils/storage.ts:192-194 | deleting an id that no product carries leaves the list unchanged |
| `Catalog.DeleteIdempotent` | src/utils/storage.ts:193 | deleting the same id twice gives the same list as deleting it once |
| `Ledger.Since` | src/utils/storage.ts:262 | the result holds exactly the records stamped at or after the bound, with their multiplicities, in log order |
| `Ledger.SinceSum` | src/utils/storage.ts:247-249 | summing the selected records equals summing the amounts of exactly the records at or after the bound |
| `Ledger.SinceMonotone` | src/pages/HistoryPage.tsx:91-100 | a later bound selects a subsequence of what an earlier bound selects |
| `Accounts.FindByEmail` | src/utils/storage.ts:76 | the result is found exactly when some user has the email, and it is the first such user |
| `Accounts.Registered` | src/utils/storage.ts:115-130 | a taken email is rejected with "Email sudah terdaftar"; otherwise the new user is appended; emails stay unique |
| `Accounts.LoginResult` | src/utils/storage.ts:75-84 | login succeeds exactly when the email is registered and returns the first registered user with that email; otherwise it fails with "Email atau password salah"; no password is consulted |
| `Storage.ProductStorage.Add` | src/utils/storage.ts:159-170 | the created product carries the given fields, id and creation time, and is appended after the existing products |
| `Storage.ProductStorage.Update` | src/utils/storage.ts:175-187 | the new list is `Catalog.Updated` of the old one |
| `Storage.ProductStorage.Delete` | src/utils/storage.ts:189-197 | the new list is `Catalog.WithoutId` of the old one |
| `Storage.ProductStorage.UpdateStock` | src/utils/storage.ts:200-210 | the new list is `Catalog.StockSold` of the old one |
| `Storage.TransactionStorage.Add` | src/utils/storage.ts:224-237 | the new record carries the draft, id and timestamp, and goes in front of all older records, which keep their order |
| `Storage.TransactionStorage.TodayTransactions` | src/utils/storage.ts:255-264 | the result holds exactly the stored records at or after midnight, each as often as it is stored, in log order |
| `Storage.TransactionStorage.TodayTotal` | src/utils/storage.ts:240-252 | the total is the sum over exactly the records that `TodayTransactions` returns |
| `Storage.AuthStorage.Register` | src/utils/storage.ts:111-135 | a taken email is rejected and nothing changes; otherwise one user is appended and becomes the session; unique emails stay unique |
| `Storage.AuthStorage.Login` | src/utils/storage.ts:72-86 | the result is `Accounts.LoginResult`, whatever the password; on success that user becomes the session; the registry is unchanged |
| `Search.ToLower` | src/pages/ProductsPage.tsx:134 | lower-casing keeps the length and lower-cases each character |
| `Search.IncludesIffOccurs` | src/pages/CashierPage.tsx:120 | `includes` holds exactly when the query occurs at some position of the name |
| `Search.SearchByName` | src/pages/ProductsPage.tsx:133-135 | the result keeps exactly the products whose lower-cased name contains the lower-cased query, with their multiplicities, in order |
| `Search.EmptyQueryKeepsAll` | src/pages/CashierPage.tsx:119-121 | an empty query keeps every product |
| `Cashier.FindLine` | src/pages/CashierPage.tsx:58 | the result is found exactly when the product has a cart line, and it is the first such line |
| `Cashier.CartItemQuantity` | src/pages/CashierPage.tsx:123-126 | the result is the quantity of the product's first cart line, or 0 when it has none |
| `Cashier.HandleAddToCart` | src/pages/CashierPage.tsx:52-65 | `addToCart` is called exactly when stock > 0 and the in-cart quantity < stock; otherwise the cart is unchanged and "Stok habis!" or "Stok tidak mencukupi!" is shown, in that order of precedence |
| `Cashier.ApplySales` | src/pages/CashierPage.tsx:85-87 | the stock updates for the cart lines, applied in cart order, keep the catalogue's length and ids |
| `Cashier.SalesEffect` | src/pages/CashierPage.tsx:85-87 | when no cart line has a negative quantity: after checkout, the first product with each id in the cart has max(0, stock − units sold of it); every other product is unchanged |
| `Cashier.SalesEffectAt` | src/utils/storage.ts:205 | the same as `Cashier.SalesEffect`, under the same no-negative-quantity hypothesis, for one catalogue position |
| `Cashier.SoldStockNeverNegative` | src/utils/storage.ts:205 | whatever the quantities, a product sold at checkout never ends with negative stock |
| `Cashier.ExactSale` | src/pages/CashierPage.tsx:85-87 | with one line per product and the quantity within stock, whatever the other quantities, that product's stock drops by exactly the quantity and nothing else about it changes |
| `Cashier.DistinctSale` | src/pages/CashierPage.tsx:85-87 | with one line per product, whatever the quantities, the first product with a line's id ends at max(0, stock − that line's quantity) and nothing else about it changes |
| `Cashier.OversoldEndsAtZero` | src/pages/CashierPage.tsx:67-87 | with no negative quantity, a line above its product's current stock still checks out, and that product's stock ends at 0, even when other lines are for the same product |
| `Cashier.QtySoldAtLeast` | src/pages/CashierPage.tsx:85-87 | with no negative quantity, the units sold of a line's product are at least that line's quantity |
| `Cashier.UnsoldUntouched` | src/utils/storage.ts:203-207 | whatever the quantities, a product with no cart line, or one shadowed by an earlier product with the same id, is unchanged |
| `Cashier.UserIdOf` | src/pages/CashierPage.tsx:81 | the transaction's user id is the signed-in user's id, or empty when nobody is signed in |
| `Cashier.SellLines` | src/pages/CashierPage.tsx:85-87 | the loop leaves the catalogue at `ApplySales` of the old catalogue and the lines |
| `Cashier.HandleCheckout` | src/pages/CashierPage.tsx:67-109 | an empty cart changes nothing; the transaction (total = getTotal(), items in cart order, userId or '') is written before any stock update; then each line's stock is decreased in cart order; the cart is cleared only when every step succeeded; a throw inside the transaction write leaves checkout pending with nothing written, no alert and the cart kept; a rejected stock update keeps the cart, keeps what was already written and shows "Gagal memproses transaksi" |
| `Settlement.ByMethod` | src/pages/SettlementPage.tsx:49-50 | the result holds exactly the transactions paid with the method, in order |
| `Settlement.ByMethodSum` | src/pages/SettlementPage.tsx:48-56 | the filtered list's amounts add up to the one-pass sum of the amounts paid with the method, and its length is the one-pass count |
| `Settlement.TotalByMethod` | src/pages/SettlementPage.tsx:48-52 | the method's total is the one-pass sum of the amounts of exactly the transactions paid with it |
| `Settlement.CountByMethod` | src/pages/SettlementPage.tsx:54-56 | the method's count is the number of transactions paid with it |
| `Settlement.TotalsPartition` | src/pages/SettlementPage.tsx:48-58 | the cash, QRIS and transfer totals add up to `totalAmount` |
| `Settlement.CountsPartition` | src/pages/SettlementPage.tsx:54-59 | the three method counts add up to `totalTransactions` |
| `Settlement.Summarize` | src/pages/SettlementPage.tsx:48-59 | each method line holds the total and count of exactly the transactions paid with that method; `totalAmount` is the sum of all amounts and `totalTransactions` the number of transactions; the method lines split them exactly; an empty list shows zero everywhere |
| `Settlement.SettledAreToday` | src/pages/SettlementPage.tsx:29-32 | a transaction is aggregated under a method exactly when it is stored, stamped at or after midnight and paid with that method |
| `History.Windowed` | src/pages/HistoryPage.tsx:89-104 | a record is in the result exactly when it is in the log and inside the selected window; the result is an order-preserving subsequence of the log |
| `History.WindowedIsSince` | src/pages/HistoryPage.tsx:89-104 | 'all' returns the list unchanged; 'today' returns exactly the records since midnight; 'week' returns exactly those since now − 604800000 ms |
| `History.TotalFiltered` | src/pages/HistoryPage.tsx:106 | the shown total is the whole log's under 'all', and the sum over exactly the window's records under 'today' and 'week' |
| `History.TodayWithinWeek` | src/pages/HistoryPage.tsx:94-100 | when midnight ≥ now − 7 days, the 'today' list is a subsequence of the 'week' list |
| `History.Toggle` | src/pages/HistoryPage.tsx:192 | clicking a row expands it exactly when it was not expanded; the result is either no row or that row alone |
| `ProductsPage.Trim` | src/pages/ProductsPage.tsx:53 | the trimmed name is a slice of the text with only white space before and after it; it is empty exactly when the text is all white space, and otherwise it neither starts nor ends with white space |
| `ProductsPage.ValidateNewProduct` | src/pages/ProductsPage.tsx:53-64 | the form is refused with "Semua field harus diisi" exactly when the trimmed name, the price text or the stock text is empty ("0" passes); otherwise the product to store carries the trimmed name |
| `ProductsPage.SubmitNewProduct` | src/pages/ProductsPage.tsx:49-73 | a refused form leaves storage untouched; an accepted one appends the product with the trimmed name |
| `ProductsPage.SubmitEdit` | src/pages/ProductsPage.tsx:75-96 | with a product being edited, `update` runs with the trimmed name and the parsed price and stock, with no emptiness check; with none, nothing changes |
| `ProductsPage.EditPatch` | src/pages/ProductsPage.tsx:83-87 | merging the edit overwrites the name, price and stock and nothing else |
| `ProductsPage.EditStoresUnchecked` | src/pages/ProductsPage.tsx:75-87 | any name, including a blank one, and any parsed numbers reach the stored product |
| `ProductsPage.StockBadge` | src/pages/ProductsPage.tsx:213-219 | exactly one badge per stock level: green above 10, yellow from 1 to 10, red at 0 or below |
| `RegisterPage.CheckPasswords` | src/pages/RegisterPage.tsx:22-30 | `register` is reached exactly when the passwords match and have at least 6 characters; a mismatch is reported first, then a short password |
| `RegisterPage.FailureMessage` | src/pages/RegisterPage.tsx:38 | a thrown Error shows its own message; anything else shows "Registrasi gagal" |
| `RegisterPage.HandleRegister` | src/pages/RegisterPage.tsx:18-42 | a failed check shows its message and does not call `register`; otherwise registration succeeds exactly when the email is free, and then the new user is appended and becomes the session; a taken email shows "Email sudah terdaftar" and changes nothing |

## Left out

- localStorage, JSON encoding and the `setTimeout` latency are left out. Each table is an in-memory list, and each asynchronous call is a sequential method call.
- `Date.now()`, `setHours(0, 0, 0, 0)` and the `prod-…`, `txn-…` and `user-…` ids are left out. They are parameters. Ids are not assumed to be unique.
- History.Windowed: the source calls `Date.now()` and computes midnight again for every record it filters. The model takes one `now` and one `midnight` for the whole list.
- `productStorage.getAll` and `transactionStorage.getAll` are not separate members. They are plain reads of the `products` and `transactions` fields.
- `authStorage.demoLogin`, `logout` and `getCurrentUser` are left out. They seed demo data or move the session pointer and hold no logic of their own.
- The cart context is not part of this model. This covers `addToCart`, `updateQuantity`, `removeFromCart`, `clearCart`, `getTotal` and `getItemCount`. The cart is a `seq<CartItem>`, its total is a given value and `addToCart` is a given function. No clamping inside the cart is claimed.
- Cashier.HandleCheckout: the product reload after the stock updates (`loadProducts`) is left out. It catches its own errors, so it cannot change the outcome. The processing flag and success banner are UI state and are also left out.
- Cashier.HandleCheckout: a throw inside `transactionStorage.add` leaves checkout pending forever. The model ends it in `Pending` and does not model the processing flag that stays set.
- Cashier.HandleCheckout: only a throwing storage call is modelled as a failure. `getTotal()` and `clearCart()` run cart-context code that is not part of this model, and the model treats them as never throwing.
- ProductsPage.SubmitNewProduct and ProductsPage.SubmitEdit do not model the "Gagal menambahkan produk" and "Gagal mengupdate produk" branches. The modelled storage calls never reject.
- `parseInt` is left out. A non-numeric text gives NaN in the source, and the model has no NaN. The parsed price and stock are given integers.
- Search.ToLower lower-cases ASCII letters only. `toLowerCase` covers all of Unicode.
- RegisterPage.CheckPasswords counts characters as Unicode scalar values. JavaScript's `length` counts UTF-16 code units, so the two differ for characters outside the Basic Multilingual Plane.
- Catalog.Merge overrides a field only when the patch carries a value. A field the patch sets explicitly to `undefined` is not modelled.
- The model does not claim that a stored transaction's `totalAmount` equals the sum of its item subtotals. The seeded demo transactions do not satisfy it.
- The dashboard, login page, auth context and showcase app are display code or thin wrappers, and are left out. So are the currency and date formatting, the settlement bar percentages (floating point) and the simulated export.
