# Drone-delivery shop: orders, payments and admin console rules in Dafny

This project models the core rules of a small shop made of Flask services and a React admin
console, and proves properties of them:

- **orders service** (`orders/orders.py`):
  - the in-memory TTL cache;
  - the cache-first batch lookup of products and users;
  - the comma-separated storage of an order's product list;
  - the create / list / get / update-in-place / delete handlers.
- **payments service** (`payments/payments.py`):
  - payment creation with its checks and custom ids;
  - the search filter;
  - update in place or under a new id;
  - delete.
- **admin console** (`frontend/src/components/`):
  - Orders screen: row order, product picker and total, form guards, product-list parsing and names, drone dispatch, action buttons;
  - Dashboard: revenue, counts, last five orders, payments per status;
  - Users screen: e-mail validation, form guards.

Files, one module each:

| file | module | what |
|---|---|---|
| `text.dfy` | `Text` | Python `str(int)`, `int(str)`, `strip`, `split`/`join`; JavaScript `parseInt` |
| `request_values.dfy` | `RequestValues` | JSON scalars of a request body, Python truthiness and `int()` on them |
| `ttl_cache.dfy` | `TtlCache` | `cache_set` / `cache_get` as a class over a map |
| `orders_fetch.dfy` | `OrdersFetch` | `get_products_by_ids` / `get_users_by_ids` |
| `orders_codec.dfy` | `OrdersCodec` | `parse_product_ids_field` / `product_list_to_field` |
| `orders_service.dfy` | `OrdersService` | the order handlers, over a class holding the `orders` table |
| `payments_service.dfy` | `PaymentsService` | the payment handlers, over a class holding the `payments` table |
| `console_data.dfy` | `ConsoleData` | the rows and form values the console's screens share |
| `orders_console.dfy` | `OrdersConsole` | the Orders screen |
| `users_console.dfy` | `UsersConsole` | the Users screen |
| `dashboard.dfy` | `Dashboard` | the Dashboard screen |

Time (`time.time()`) is a parameter `now`. The remote services are oracle parameters:
- for a lookup, what the batch endpoint answers (`None` when it fails) and what the
  single-item endpoint answers per id;
- for a payment, the total the orders service reports per order.

Each table is a `map` from id to row, held by a class together with the table's identity
counter (`lastId`). The counter models SQL Server's IDENTITY column:
- an automatic id is `lastId + 1`;
- an explicit insert of a larger id raises the counter to it.

Prices, totals and amounts are integers.

## Model

| member | source | states |
|---|---|---|
| TtlCache.Cache.Set | orders/orders.py:72-73 | the entry for the key becomes (now + ttl, value); nothing else changes |
| TtlCache.Cache.Get | orders/orders.py:75-83 | returns the value of an unexpired entry and None otherwise; deletes the key exactly when its entry has expired |
| TtlCache.Stored | orders/orders.py:72-73 | the dictionary after a write: the key maps to (now + ttl, value); TtlCache.Cache.Set is proved to produce it |
| TtlCache.Fetch | orders/orders.py:75-83 | a read's value and the dictionary it leaves: a missing key gives None; an entry past its expiry gives None and is removed; otherwise its value, nothing removed; TtlCache.Cache.Get is proved to produce it |
| TtlCache.GetAfterSet | orders/orders.py:72-83 | a value set at t is read back at every now ≤ t + ttl, and the read leaves the cache as it was |
| TtlCache.GetAfterExpiry | orders/orders.py:80-82 | after t + ttl the read misses and removes the key |
| TtlCache.SetOnlyTouchesKey | orders/orders.py:72-73 | a write changes reads of no other key |
| TtlCache.GetOnlyRemoves | orders/orders.py:75-83 | a read adds or changes no entry and removes at most its own key |
| OrdersFetch.GetByIds | orders/orders.py:113-136 | returns, for every distinct requested id, the cached document on a hit or the remote answer on a miss; the cache gains a 30-second entry for exactly the missed ids |
| OrdersFetch.Misses | orders/orders.py:115-124 | the ids that go to `to_fetch`: requested ids without an unexpired entry holding a document (OrdersFetch.CachedNoneRefetched, OrdersFetch.AllHitsIffNothingFetched) |
| OrdersFetch.Answer | orders/orders.py:113-136 | the dictionary a lookup returns: per distinct requested id the cached document on a hit, else the remote answer (OrdersFetch.AnswerCoversRequest) |
| OrdersFetch.CheckCache | orders/orders.py:115-124 | the first loop: the hits are the cached values of the ids that hit; to_fetch lists each missed id once; only expired entries of requested ids are deleted |
| OrdersFetch.StoreFetched | orders/orders.py:131-136 | the second loop: the result gains the remote answer and the cache a fresh entry for each fetched id |
| OrdersFetch.AllHitsIffNothingFetched | orders/orders.py:126-127 | nothing is fetched iff every id hits, and then the cache is not written |
| OrdersFetch.CachedNoneRefetched | orders/orders.py:120-124 | an id cached as None is fetched again, however fresh its entry |
| OrdersFetch.AnswerCoversRequest | orders/orders.py:119-135 | every requested id is in the result: a hit's cached document, or the remote answer; None when the batch endpoint omitted it |
| OrdersFetch.FetchedThenHit | orders/orders.py:135 | a document fetched at now is served from the cache by every later lookup up to now + 30 |
| OrdersFetch.KeyTextInjective | orders/orders.py:120 | distinct (kind, id) keys are spelled as distinct strings |
| OrdersFetch.KeyText | orders/orders.py:120 | the cache key `f"product:{pid}"` (or `f"user:{uid}"`); distinct keys are distinct strings (OrdersFetch.KeyTextInjective, OrdersFetch.ProductUserKeysDiffer) |
| OrdersFetch.ProductUserKeysDiffer | orders/orders.py:120 | a product key never spells the same string as a user key |
| OrdersCodec.ParseAll | orders/orders.py:215-217 | the ints of all segments, in order; an error iff some segment is not an integer |
| OrdersCodec.NonBlank | orders/orders.py:217 | keeps only non-blank segments of the list and every non-blank one; OrdersCodec.NonBlankAppend and OrdersCodec.NonBlankCons give the order and the copies |
| OrdersCodec.NonBlankAppend | orders/orders.py:217 | the filter goes through a concatenation, so it keeps the order and every copy of the segments it keeps |
| OrdersCodec.NonBlankCons | orders/orders.py:217 | a segment is kept, in front of the rest, exactly when it is not blank |
| OrdersCodec.ParseProductIdsField | orders/orders.py:211-217 | None and "" give []; a list is returned as it is; the text case is OrdersCodec.ParseProductIdsText |
| OrdersCodec.ParseProductIdsText | orders/orders.py:216-217 | a non-empty string reads as one int per non-blank comma-separated segment, in order, and fails iff some such segment is not an integer |
| OrdersCodec.ProductListToField | orders/orders.py:219-220 | the ids printed and joined with ","; read back by OrdersCodec.ProductIdsRoundTrip, injective by OrdersCodec.ProductListToFieldInjective |
| OrdersCodec.ProductIdsRoundTrip | orders/orders.py:211-220 | a stored product list reads back as the list written, [] included |
| OrdersCodec.ProductListToFieldInjective | orders/orders.py:219-220 | two lists are stored alike only when they are equal |
| OrdersService.OrderStore.CreateOrder | orders/orders.py:224-292 | a request refused by the checks changes nothing; otherwise the products are looked up and the insert is applied with the sum of the prices |
| OrdersService.OrderStore.Insert | orders/orders.py:264-292 | the id check and the insert of a "Pending" row; keeps the identity counter above every id |
| OrdersService.SumPrices | orders/orders.py:244-255 | the loop's total is the sum of the prices of the listed products found with a price |
| OrdersService.OrderTotal | orders/orders.py:244-255 | the prices of the listed products found with a price, a repeated id counting again (OrdersService.OrderTotalAppend and the three lemmas after it) |
| OrdersService.CreateCheckPassIff | orders/orders.py:228-241 | the checks pass iff the product ids parse, the user id is a positive integer and some product is named |
| OrdersService.CreateCheck | orders/orders.py:228-241 | the checks before the products lookup, in the handler's order (OrdersService.CreateCheckPassIff and the two refusal lemmas) |
| OrdersService.CreateEffect | orders/orders.py:263-292 | the custom-id check and the insert (OrdersService.CreateStoresPending, OrdersService.CreateRefusesBadCustomId, OrdersService.CreateKeepsIdsBelow, OrdersService.CreateFailureKeepsStore) |
| OrdersService.CreateRefusesBadUser | orders/orders.py:235-236 | a missing, zero or negative user id is a 400 "User ID must be positive" |
| OrdersService.CreateRefusesNoProducts | orders/orders.py:238-239 | an empty product list is a 400 "Please select at least one product" |
| OrdersService.CreateRefusesBadCustomId | orders/orders.py:266-272 | a custom id ≤ 0 is a 400 and a taken one a 409; neither changes the store |
| OrdersService.CreateKeepsIdsBelow | orders/orders.py:264-292 | the identity counter stays at or above every stored id |
| OrdersService.CreateStoresPending | orders/orders.py:264-292 | a created order takes a free id, is "Pending", leaves the other orders alone, and its product list reads back |
| OrdersService.CreateFailureKeepsStore | orders/orders.py:264-272 | a refused insert changes nothing |
| OrdersService.OrderTotalAppend | orders/orders.py:244-253 | the total of two lists together is the sum of their totals |
| OrdersService.OrderTotalOfUnpriced | orders/orders.py:246-260 | products not found, or without a price, add nothing |
| OrdersService.OrderTotalBoundsEachPrice | orders/orders.py:244-253 | with non-negative prices the total is at least each listed product's price |
| OrdersService.OrderTotalNonNegative | orders/orders.py:244-253 | with non-negative prices the total is not negative |
| OrdersService.ListOrders | orders/orders.py:306-314 | returns only stored orders, unchanged |
| OrdersService.Listed | orders/orders.py:306-311 | a search keeps an order iff it is blank or not an integer, or equals the order's id or user id (OrdersService.ListKeepsAllUnlessNumeric, OrdersService.ListNumericMatchesIdOrUser) |
| OrdersService.ListKeepsAllUnlessNumeric | orders/orders.py:306-314 | a blank or non-numeric search keeps every order |
| OrdersService.ListNumericMatchesIdOrUser | orders/orders.py:308-311 | an integer search keeps exactly the orders with that id or user id |
| OrdersService.ProductInfos | orders/orders.py:332-339 | one entry per stored id, in order; the name and price of a product that was found, null for one that was not |
| OrdersService.UserNameOf | orders/orders.py:342-343 | the found user's name, else "Unknown" |
| OrdersService.UnknownUserName | orders/orders.py:342-343 | "Unknown" is shown iff the user was not found (for users whose names are present and not "Unknown") |
| OrdersService.OrderViewOf | orders/orders.py:367-390 | the view of a stored order: its fields, the infos of its product ids in order, and its user's name (OrdersService.StoredOrderView) |
| OrdersService.OrderStore.GetOrder | orders/orders.py:359-392 | 404 for an unknown id; otherwise the view built from the products lookup (only when there are product ids) and then the user lookup, with the cache updated by both |
| OrdersService.StoredOrderView | orders/orders.py:367-375 | the view of an order stored from a list lists those products, in order, with what the lookup found |
| OrdersService.UpdateCheck | orders/orders.py:456-465 | the user id and product checks of an in-place update |
| OrdersService.UpdateCheckRejects | orders/orders.py:456-465 | an update is refused iff its user id is not an integer or its product string does not parse |
| OrdersService.UpdatedOrder | orders/orders.py:456-480 | each field is replaced iff the request gives it; a new product list brings its new total |
| OrdersService.OrderStore.UpdateOrder | orders/orders.py:394-487 | 404 for an unknown id; refused checks change nothing; otherwise exactly that order becomes the updated row, and products are looked up only when given |
| OrdersService.EmptyUpdateKeepsOrder | orders/orders.py:456-480 | an update that gives no field leaves the order as it was |
| OrdersService.UpdateIdempotent | orders/orders.py:456-480 | applying the same update twice equals applying it once |
| OrdersService.UpdatedProductsRoundTrip | orders/orders.py:458-474 | a product list stored by an update reads back unchanged |
| OrdersService.OrderStore.DeleteOrder | orders/orders.py:492-501 | 404 for an unknown id; otherwise removes exactly that id |
| PaymentsService.PaymentStore.MakePayment | payments/payments.py:69-127 | a refused request changes nothing; otherwise the payment is stored under the next or the custom id; keeps the identity counter above every id |
| PaymentsService.MakeCheckPassIff | payments/payments.py:74-87 | the checks pass iff the order id is a positive integer, a method is given, and the order's total is positive; the row's amount is that total and its status "Pending" unless one is given |
| PaymentsService.MakeCheckRefusals | payments/payments.py:79-87 | order id ≤ 0, then an empty method, then a total ≤ 0 are each a 400 with their message |
| PaymentsService.MakeCheck | payments/payments.py:72-87 | the checks of `make_payment`, in its order (PaymentsService.MakeCheckPassIff, PaymentsService.MakeCheckRefusals) |
| PaymentsService.InsertEffect | payments/payments.py:89-127 | the custom-id check and the insert (PaymentsService.InsertRefusesBadCustomId, PaymentsService.InsertStoresRow) |
| PaymentsService.MakeEffect | payments/payments.py:69-127 | the checks, then the insert (PaymentsService.MakeKeepsIdsBelow, PaymentsService.MakeFailureKeepsStore, PaymentsService.DeleteUndoesMake) |
| PaymentsService.InsertRefusesBadCustomId | payments/payments.py:89-98 | a custom id ≤ 0 is a 400, a taken one a 409; the store is unchanged |
| PaymentsService.InsertStoresRow | payments/payments.py:89-127 | a created payment takes a free id (the custom one when given) and leaves the other payments alone |
| PaymentsService.MakeKeepsIdsBelow | payments/payments.py:89-127 | the identity counter stays at or above every stored id |
| PaymentsService.MakeFailureKeepsStore | payments/payments.py:69-127 | a refused payment changes nothing |
| PaymentsService.DeleteUndoesMake | payments/payments.py:118-127 | deleting a payment just created gives back the previous store |
| PaymentsService.ListPayments | payments/payments.py:141-152 | returns only stored payments, unchanged |
| PaymentsService.PaymentListed | payments/payments.py:141-152 | the search filter (PaymentsService.BlankSearchListsAll, PaymentsService.NumericSearch, PaymentsService.TextSearch) |
| PaymentsService.BlankSearchListsAll | payments/payments.py:141-143 | a blank search lists every payment |
| PaymentsService.NumericSearch | payments/payments.py:144-147 | an integer search keeps exactly the payments with that id or order id |
| PaymentsService.TextSearch | payments/payments.py:148-152 | any other search keeps exactly the payments whose method or status contains it |
| PaymentsService.PaymentStore.UpdatePayment | payments/payments.py:166-219 | the store and reply after an update in place or under a new id; keeps the identity counter above every id |
| PaymentsService.UpdateEffect | payments/payments.py:166-219 | the reply and store of an update (PaymentsService.UpdateUnknownId, PaymentsService.UpdateInPlace, PaymentsService.UpdateRenames, PaymentsService.UpdateKeepsIdsBelow) |
| PaymentsService.NewId | payments/payments.py:175-178 | whether the request moves the payment to another id (PaymentsService.NewIdMeaning) |
| PaymentsService.UpdateUnknownId | payments/payments.py:170-173 | an unknown id is a 404 and changes nothing |
| PaymentsService.WithFields | payments/payments.py:213-217 | each of order id, amount, method, status is replaced iff the request gives it |
| PaymentsService.UpdateInPlace | payments/payments.py:213-219 | without a new id the payment keeps its id, each field is replaced iff given, other payments are unchanged |
| PaymentsService.UpdateRenames | payments/payments.py:177-207 | new id ≤ 0 is a 400, a taken one a 409; otherwise the old id is gone and the new id holds the request's fields over the old ones; no other payment changes |
| PaymentsService.NewIdMeaning | payments/payments.py:175-178 | a move is asked iff the id is truthy and reads as another integer; a non-integer id is a 400 |
| PaymentsService.SameIdUpdatesInPlace | payments/payments.py:177 | resending the current id updates in place |
| PaymentsService.WithFieldsIdempotent | payments/payments.py:213-217 | the same field update applied twice equals it applied once |
| PaymentsService.UpdateKeepsIdsBelow | payments/payments.py:177-217 | the identity counter stays at or above every stored id |
| PaymentsService.PaymentStore.DeletePayment | payments/payments.py:229-238 | 404 for an unknown id; otherwise removes exactly that id |
| OrdersConsole.InsertRow | frontend/src/components/Orders.js:22-26 | inserting keeps the rows as a multiset plus the new one |
| OrdersConsole.SortRowsCorrect | frontend/src/components/Orders.js:22-26 | the sort returns a permutation ordered by the comparator |
| OrdersConsole.SortedRowsMeaning | frontend/src/components/Orders.js:23-25 | in sorted rows every "Pending" order precedes the others, and ids go down within each group |
| OrdersConsole.CompareFlip | frontend/src/components/Orders.js:22-26 | the comparator is antisymmetric |
| OrdersConsole.CompareTransitive | frontend/src/components/Orders.js:22-26 | the comparator is transitive |
| OrdersConsole.Compare | frontend/src/components/Orders.js:22-26 | the comparator: "Pending" first, then the larger id first (OrdersConsole.CompareFlip, OrdersConsole.CompareTransitive, OrdersConsole.SortedRowsMeaning) |
| OrdersConsole.SortRows | frontend/src/components/Orders.js:22-27 | an insertion sort standing for `sort` with the comparator (OrdersConsole.SortRowsCorrect) |
| OrdersConsole.FindProduct | frontend/src/components/Orders.js:67 | a product with the id, or none when no product has it; it is the first such product (OrdersConsole.FindProductFirst) |
| OrdersConsole.FindProductFirst | frontend/src/components/Orders.js:67 | `find` returns the first match: no product before the one returned has its id |
| OrdersConsole.CalculateTotal | frontend/src/components/Orders.js:64-70 | the reduce over the selected ids (OrdersConsole.CalculateTotalAppend, OrdersConsole.CalculateTotalWithout, OrdersConsole.CalculateTotalOfUnknown) |
| OrdersConsole.CalculateTotalAppend | frontend/src/components/Orders.js:65-70 | the total of two lists together is the sum of their totals |
| OrdersConsole.CalculateTotalWithout | frontend/src/components/Orders.js:65-70 | a total is the total without x plus x's price once per time x is selected |
| OrdersConsole.CalculateTotalOfUnknown | frontend/src/components/Orders.js:67-68 | ids matching no product add nothing |
| OrdersConsole.CreateClick | frontend/src/components/Orders.js:95-109 | the create click (OrdersConsole.CreateClickGuards) |
| OrdersConsole.Without | frontend/src/components/Orders.js:75 | removes every occurrence of x and keeps every other id; OrdersConsole.WithoutAppend gives the order and the copies |
| OrdersConsole.WithoutAppend | frontend/src/components/Orders.js:75 | the filter goes through a concatenation, and keeps one id exactly when it is not x: it keeps the order and every copy of the other ids |
| OrdersConsole.Toggle | frontend/src/components/Orders.js:83-85 | removes a selected id everywhere, appends an unselected one (OrdersConsole.ToggleFlips, OrdersConsole.ToggleTwiceRestores) |
| OrdersConsole.ToggleProduct | frontend/src/components/Orders.js:82-90 | the create form after a toggle: the new list and its total (OrdersConsole.ToggleTotal) |
| OrdersConsole.ToggleEditProduct | frontend/src/components/Orders.js:73-81 | the edit form after a toggle: the new list and its total (OrdersConsole.ToggleEditRules) |
| OrdersConsole.ToggleFlips | frontend/src/components/Orders.js:72-92 | a toggle flips the selection of its id and of no other |
| OrdersConsole.ToggleTwiceRestores | frontend/src/components/Orders.js:72-92 | toggling an unselected id twice restores the list |
| OrdersConsole.ToggleTotal | frontend/src/components/Orders.js:72-92 | the shown total rises by the price on a select and falls by the price times its count on a deselect |
| OrdersConsole.EditTotalIgnoresNaN | frontend/src/components/Orders.js:64-70 | the edit form's total is the total of its numeric entries: a NaN entry finds no product |
| OrdersConsole.EditTotal | frontend/src/components/Orders.js:65-70 | `calculateTotal` over the edit list, where a NaN entry finds no product and adds 0; it equals the total of the numeric entries (OrdersConsole.EditTotalIgnoresNaN) |
| OrdersConsole.ToggleEditRules | frontend/src/components/Orders.js:72-81 | an edit toggle flips the selection of its id, keeps every NaN entry, and shows the total of the numeric entries of the new list |
| OrdersConsole.CreateClickGuards | frontend/src/components/Orders.js:95-109 | the create call is made iff a user and a product are chosen and a typed id is not ≤ 0; the body carries the selected ids |
| OrdersConsole.SaveClick | frontend/src/components/Orders.js:144-157 | the save click (OrdersConsole.SaveClickGuards) |
| OrdersConsole.SaveClickGuards | frontend/src/components/Orders.js:144-157 | the save call is made iff user, products and id are given and the id is not ≤ 0; the body carries the parsed id and user id and the product list as it is, NaN entries included (sent as null) |
| OrdersConsole.NonEmpty | frontend/src/components/Orders.js:126 | keeps only non-empty segments of the list and every non-empty one; OrdersConsole.NonEmptyAppend and OrdersConsole.NonEmptyOne give the order and the copies |
| OrdersConsole.NonEmptyAppend | frontend/src/components/Orders.js:126 | the filter goes through a concatenation, so it keeps the order and every copy of the segments it keeps |
| OrdersConsole.NonEmptyOne | frontend/src/components/Orders.js:126 | one segment is kept exactly when it is not empty |
| OrdersConsole.ParseInts | frontend/src/components/Orders.js:127 | one parseInt per segment, in order |
| OrdersConsole.StartEditEmpty | frontend/src/components/Orders.js:125-127 | null and "" open an empty product list |
| OrdersConsole.StartEdit | frontend/src/components/Orders.js:123-136 | the edit form of an order: its id, user id and total, and its product list read by OrdersConsole.StartEditIds, NaN entries kept (OrdersConsole.StartEditEmpty, OrdersConsole.StartEditReadsStoredList, OrdersConsole.StartEditKeepsNaN) |
| OrdersConsole.StartEditIds | frontend/src/components/Orders.js:125-127 | the stored field (or "") split at commas, empty segments dropped, each read by `parseInt`: null and "" give [] (OrdersConsole.StartEditEmpty), a stored list reads back (OrdersConsole.StartEditReadsStoredList), "x" gives [NaN] (OrdersConsole.NaNSegmentKept) |
| OrdersConsole.NaNSegmentKept | frontend/src/components/Orders.js:125-127 | a segment parseInt cannot read stays in the list as NaN |
| OrdersConsole.StartEditKeepsNaN | frontend/src/components/Orders.js:123-157 | a segment parseInt cannot read stays: "x" opens as [NaN], and a save sends it back as [null] |
| OrdersConsole.StartEditReadsStoredList | frontend/src/components/Orders.js:123-136 | a list stored by the orders service opens as that very list |
| OrdersConsole.ProductNamesOfStoredList | frontend/src/components/Orders.js:182-190 | for a stored list, the i-th name is that of the i-th product, or "ID:" and the id |
| OrdersConsole.GetProductNames | frontend/src/components/Orders.js:182-190 | "N/A" for null or "", else the segments' names joined by ", " (OrdersConsole.ProductNamesOfStoredList) |
| OrdersConsole.NameOf | frontend/src/components/Orders.js:185-187 | the first product whose id is the segment's parseInt, by its name, else "ID:" and the segment (OrdersConsole.ProductNamesOfStoredList) |
| OrdersConsole.Names | frontend/src/components/Orders.js:184-188 | the `map`: one name per segment, the i-th being NameOf of the i-th segment |
| OrdersConsole.DispatchStart | frontend/src/components/Orders.js:193-201 | the "Delivering" write: a write that reaches the service sets a known order's status to "Delivering" and nothing else; the timer is set only when the answer also comes back; a 404 or a lost answer sets no timer, and a lost request changes nothing |
| OrdersConsole.DispatchFinish | frontend/src/components/Orders.js:202-207 | the timer's "Completed" write on the store as it is then: a write that reaches the service gives a known order status "Completed", whether or not its answer comes back; an order deleted meanwhile gets a 404 and the store is unchanged |
| OrdersConsole.StatusWrite | frontend/src/components/Orders.js:196-204 | one status write as the console sees it, with the request reaching the service and the answer reaching the console as separate outcomes (OrdersConsole.StatusWriteEffect) |
| OrdersConsole.StatusWriteEffect | frontend/src/components/Orders.js:196-204 | the console sees success iff the request reaches the service, the order exists and the answer comes back; the store changes iff the request reaches the service and the order exists, and then only that order's status; keys and every other order stay |
| OrdersConsole.DispatchOutcome | frontend/src/components/Orders.js:193-212 | no timer unless "Delivering" was stored and answered; without a timer the order is unchanged or, when the write was stored but its answer lost, "Delivering"; with one, the order ends "Completed" when the second write reaches the service and stays "Delivering" when it does not, every other field unchanged |
| OrdersConsole.UnansweredDispatchStrandsOrder | frontend/src/components/Orders.js:193-212 | a "Delivering" write stored by the service but answered too late sets no timer, and the row then shows no button: the order stays "Delivering" |
| OrdersConsole.DispatchFinishAfterDelete | frontend/src/components/Orders.js:202-207 | a finish for an order deleted during the delay fails and leaves the store as it was |
| OrdersConsole.RenderActionsRules | frontend/src/components/Orders.js:215-267 | Save/Cancel for the edited row; dispatch iff "Pending"; Edit/Delete iff another status than the drone's three; no button while "Delivering" or "Completed" |
| OrdersConsole.RenderActions | frontend/src/components/Orders.js:215-267 | the Actions cell of a row (OrdersConsole.RenderActionsRules) |
| OrdersConsole.DispatchedRowHasNoButtons | frontend/src/components/Orders.js:193-267 | after either dispatch write the row offers no button |
| Dashboard.MakeStats | frontend/src/components/Dashboard.js:52-61 | the counts are the lengths of the fetched lists and the revenue is that of the payments |
| Dashboard.WithStatus | frontend/src/components/Dashboard.js:52-53 | keeps only payments of the status, from the list; Dashboard.WithStatusCounts gives the copies and Dashboard.WithStatusAppend the order |
| Dashboard.WithStatusCounts | frontend/src/components/Dashboard.js:52-53 | every copy of a payment with the status is kept, and no copy of any other |
| Dashboard.WithStatusAppend | frontend/src/components/Dashboard.js:52-53 | the filter goes through a concatenation, so it keeps the order of the list |
| Dashboard.WithStatusSnoc | frontend/src/components/Dashboard.js:53 | one payment is kept, after the rest, exactly when it has the status |
| Dashboard.SumAmounts | frontend/src/components/Dashboard.js:54 | the reduce over the amounts (Dashboard.SumAmountsAppend) |
| Dashboard.SumAmountsAppend | frontend/src/components/Dashboard.js:54 | the sum of two lists together is the sum of their sums |
| Dashboard.Revenue | frontend/src/components/Dashboard.js:52-54 | the amounts of the "Paid" payments (Dashboard.RevenueAppend and the two lemmas after it) |
| Dashboard.RevenueAppend | frontend/src/components/Dashboard.js:52-54 | revenue adds up over two halves of the payments |
| Dashboard.RevenueOfOneMore | frontend/src/components/Dashboard.js:52-54 | one more payment adds its amount iff it is "Paid" |
| Dashboard.RevenueWithoutPaid | frontend/src/components/Dashboard.js:52-54 | with no "Paid" payment the revenue is 0 |
| Dashboard.Reverse | frontend/src/components/Dashboard.js:64 | the i-th element is the i-th from the end |
| Dashboard.FindUser | frontend/src/components/Dashboard.js:65 | a user with that id, or none when no user has it; it is the first such user (Dashboard.FindUserFirst) |
| Dashboard.FindUserFirst | frontend/src/components/Dashboard.js:65 | `find` returns the first match: no user before the one returned has its id |
| Dashboard.UserName | frontend/src/components/Dashboard.js:65-68 | the found user's name, else "ID: " and the user id (Dashboard.RecentUserName) |
| Dashboard.WithNames | frontend/src/components/Dashboard.js:64-70 | one row per order, in order, each with its order and the name shown for its user |
| Dashboard.LastFive | frontend/src/components/Dashboard.js:64 | `slice(-5)` (Dashboard.Last5OrdersWindow) |
| Dashboard.Last5Orders | frontend/src/components/Dashboard.js:64-70 | the last five orders, newest first, with their users' names (Dashboard.Last5OrdersWindow, Dashboard.RecentUserName) |
| Dashboard.Last5OrdersWindow | frontend/src/components/Dashboard.js:64 | min(5, n) rows, the i-th being the (i+1)-th order from the end |
| Dashboard.RecentUserName | frontend/src/components/Dashboard.js:65-69 | the row shows the found user's name, else "ID: " and the user id |
| Dashboard.CountStatusesExact | frontend/src/components/Dashboard.js:74-79 | each counter equals the number of payments with exactly that status |
| Dashboard.CountStatuses | frontend/src/components/Dashboard.js:74-79 | the reduce that counts payments per status (Dashboard.CountStatusesExact, Dashboard.CountStatusesBound, Dashboard.OtherStatusNotCounted) |
| Dashboard.CountStatusesBound | frontend/src/components/Dashboard.js:74-79 | the three counters add up to at most the number of payments |
| Dashboard.OtherStatusNotCounted | frontend/src/components/Dashboard.js:75-78 | a payment of any other status changes no counter |
| UsersConsole.ValidateEmailMatchesPattern | frontend/src/components/Users.js:31-34 | the validator accepts a string iff it matches the pattern: local part, '@', domain, '.', two or more letters |
| UsersConsole.ValidEmailHasOneAt | frontend/src/components/Users.js:32 | an accepted address contains exactly one '@' |
| UsersConsole.ValidateEmail | frontend/src/components/Users.js:31-34 | the validator, over the first '@' and the last '.' after it (UsersConsole.ValidateEmailMatchesPattern, UsersConsole.ValidEmailHasOneAt) |
| UsersConsole.MatchesPattern | frontend/src/components/Users.js:32 | the regular expression as a predicate: some '@' and a later '.' split the string into its three parts |
| UsersConsole.GmailAddressAccepted | frontend/src/components/Users.js:41 | "user@gmail.com" matches |
| UsersConsole.OneLetterDomainRejected | frontend/src/components/Users.js:32 | "a@b.c" does not match |
| UsersConsole.CreateUserClickGuards | frontend/src/components/Users.js:37-54 | the add call is made iff name and e-mail are given, the e-mail matches and a typed id is not ≤ 0; the id is left out iff none was typed, and a typed id goes out as parseInt reads it, or null when it reads NaN |
| UsersConsole.CreateUserSendsTypedId | frontend/src/components/Users.js:50-54 | a typed positive number is sent as that id |
| UsersConsole.CreateUserClick | frontend/src/components/Users.js:37-54 | the add click: its checks in order and the alert each gives (UsersConsole.CreateUserClickAlerts), when the call is made and the body it sends (UsersConsole.CreateUserClickGuards) |
| UsersConsole.CreateUserClickAlerts | frontend/src/components/Users.js:38-52 | a missing name or e-mail gives "Please enter name and email!"; with both given, an e-mail the pattern rejects gives the invalid-format alert; with that passing, a typed id read as ≤ 0 gives "ID must be positive!" |
| UsersConsole.CreateUserSendsPaddedId | frontend/src/components/Users.js:50-54 | an id given as " 7" passes `trim()` and is sent as 7 (the handler on any string; the number input of the form does not produce this one) |
| UsersConsole.CreateUserSendsNaNId | frontend/src/components/Users.js:50-54 | an id given as "x" passes `trim()`, reads as NaN and is sent as null (the handler on any string; the number input of the form does not produce this one) |
| UsersConsole.StartUserEdit | frontend/src/components/Users.js:68-71 | the edit form holds the user's id, name and e-mail |
| UsersConsole.SaveUserClick | frontend/src/components/Users.js:79-97 | the save click: its checks in order and the alert each gives (UsersConsole.SaveUserClickAlerts), when the call is made and the body it sends (UsersConsole.SaveUserClickGuards) |
| UsersConsole.SaveUserClickAlerts | frontend/src/components/Users.js:80-90 | a missing name, e-mail or id gives "Please fill all fields!"; with all given, an e-mail the pattern rejects gives the invalid-format alert; with that passing, an id read as ≤ 0 gives "ID must be positive!" |
| UsersConsole.SaveUserClickGuards | frontend/src/components/Users.js:80-97 | the save call is made iff all fields are given, the e-mail matches and the id is not ≤ 0; it targets the edited user |
| UsersConsole.SaveUnchangedUser | frontend/src/components/Users.js:68-97 | saving a well-formed user unchanged sends it back as it is |
| Text.SplitJoin | orders/orders.py:217-220 | joining the split pieces with the separator gives the string back |
| Text.PyIntOfIntToString | orders/orders.py:217-220 | Python's int() reads back str(n) |
| Text.JsParseIntOfIntToString | frontend/src/components/Orders.js:127 | JavaScript's parseInt reads back a printed integer |
| Text.IntToStringInjective | orders/orders.py:219-220 | distinct integers print differently |
| Text.IntToString | orders/orders.py:220 | `str(n)`: a non-empty run of digits with an optional leading minus, read back by `int()` and `parseInt` (Text.PyIntOfIntToString, Text.JsParseIntOfIntToString) |
| Text.Strip | orders/orders.py:217 | `x.strip()`: the string without its leading and trailing whitespace, as TrimStart and TrimEnd state (see "## Left out" for which characters count) |
| Text.Join | orders/orders.py:220 | `",".join(parts)`: splitting the join of separator-free pieces gives the pieces back (Text.SplitJoin) |
| Text.PyInt | orders/orders.py:217 | Python's `int()` on a string: optional surrounding whitespace and sign, then digits only (Text.PyIntOfIntToString) |
| Text.JsParseInt | frontend/src/components/Orders.js:127 | JavaScript's `parseInt`: the digits after optional whitespace and sign, NaN without any (Text.JsParseIntOfIntToString) |
| Text.Split | orders/orders.py:217 | the pieces between separators: at least one, none holding the separator, and joining them gives the string back |
| RequestValues.Truthy | orders/orders.py:266 | Python truthiness of a JSON scalar: null, 0 and "" are false |
| RequestValues.PyIntOf | payments/payments.py:74 | `int()` on a JSON scalar: an integer as it is, null a TypeError, a string as Python reads it |
| ConsoleData.FilledIn | frontend/src/components/Orders.js:144-146 | a form field passes `!value`: not 0 and not "" |
| ConsoleData.ParseValue | frontend/src/components/Orders.js:149-155 | `parseInt` of a form field: a number as it is, a string as JavaScript reads it |

## Left out

- Database and ORM setup, the `init_db` retry, sessions, commits and rollbacks are I/O. Each table is a map in memory and a handler's writes take effect together.
  - The payments rename commits the delete before the insert. A database failure between the two is not modelled.
  - Errors raised by the database are not modelled.
- The HTTP calls to the products, users and orders services are network. Their answers are parameters, and the `timeout` and the exception handling inside them are not modelled.
- OrdersFetch.GetByIds runs the thread-pool fallback one id after the other. Every id has its own cache key, so the completion order changes neither the result nor the cache.
  - The `ttl=10` branch for a failed future is not modelled. `fetch_product_by_id` and `fetch_user_by_id` catch every exception, so that branch cannot be reached.
- The ids of a lookup are visited in list order, not in Python's set order. Nothing depends on the order.
- Floating-point prices, totals and amounts are modelled as integers.
  - `float(p['price'])` failing on a non-numeric price is not modelled: prices are integers or absent.
- `time.time()` is the parameter `now`. The ten-second `setTimeout` delay is the gap between OrdersConsole.DispatchStart and OrdersConsole.DispatchFinish; other writes may change the store in between. The five-second client timeout of the console's API calls is two parameters of each status write: `applied` (the request reached the orders service) and `answered` (its answer reached the console in time). The `fetchOrders` refresh after each write and the console messages are not modelled.
- OrdersService.OrderStore.UpdateOrder: the branch of `update_order` that moves an order to another id (orders/orders.py:403-453) is not modelled, and the request has no `id` field. As written, that branch makes the whole file unusable: the `try:` at orders/orders.py:426 has neither `except` nor `finally`, so Python refuses to compile the module, and no route of the orders service runs at all. Every OrdersService, OrdersFetch and TtlCache member, and OrdersConsole.DispatchStart and OrdersConsole.DispatchFinish through OrdersService.OrderStore.UpdateOrder, describe the file as it would run with that branch removed.
- `list_orders` gathers the user and product ids of all listed orders into two lookups (orders/orders.py:316-355). The model gives the filter (OrdersService.ListOrders) and the per-order view (OrdersService.OrderViewOf, used by OrdersService.OrderStore.GetOrder), not the gathering loop over many orders.
- Request bodies are reduced to the value kinds the handlers distinguish. Most fields are a JSON null, an integer or a string. A product list holds integers only. A payment's method is a string or null. The update fields of a payment are typed values. Two status fields are strings only: the `status` of an order update (orders/orders.py:477-478) and the `status` of a new payment (payments/payments.py:76). The service stores a JSON null given there as NULL, and the console would then show Edit/Delete for that order; the model does not represent a null status.
  - Floats and booleans sent as ids are not modelled.
- The message of an uncaught Python exception (a missing key, `int(None)`) is not modelled. It is the constant `InternalError` with code 500.
- The SQL `LIKE` search of payments: `%`, `_` and `[` in the search text are taken literally, and case is significant. A default SQL Server collation would ignore case.
- Python's `int()` accepting `_` between digits, and Unicode digits and whitespace, is not modelled. Neither is JavaScript's `parseInt` reading a `0x` prefix. One `Strip` (and one `IsSpace`) serves both runtimes: it removes space, tab, line feed, carriage return, vertical tab and form feed. So the ASCII separators \x1c-\x1f, which Python's `strip()` and `int()` treat as whitespace and JavaScript's `trim()` does not, are not stripped on the Python side: `parse_product_ids_field("1,\x1c")` gives [1] in Python but a 400 in the model, and `int("\x1c5")` is 5 in Python but `PyInt` gives None. Non-ASCII Unicode whitespace is not stripped on either side.
- The order of the rows a database query returns is not modelled: listings are maps keyed by id.
- The console's error alerts after a failed call, `confirm` dialogs, React state and rendering are UI. Only the guards, the bodies sent and the choice of action buttons are modelled.
- Dashboard.Last5Orders and the other dashboard functions take the four lists as given; `Promise.all` and its failure are left out.
