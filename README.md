# Pizza ordering app — a verified model of the order and inventory core

This project models, in Dafny, the server-side order and inventory logic of a
pizza ordering web application, together with the two pieces of client logic
that feed it:

- **pricing** of a custom pizza from the ingredient catalog. This covers the
  calculate-price route and the pricing loop of create-order.
- **the order workflow.** Create-order clamps quantities, picks each line's
  representative `pizza` link and numbers the order. When payments are
  disabled, it confirms the order at once and takes every component from
  stock. Verify-payment confirms an order and takes only the representative
  from stock. Cancel restores the representative's stock.
- **the admin views**: status update with delivery estimates, dashboard
  counts and revenue, the low-stock filter, and the paginated order listing.
- **the inventory routes**: create with defaults, partial edit gated by
  truthiness, delete, a stock setter, grouping by category, the low-stock
  listing and the low-stock alert text.
- **the two schemas**: the order enums, defaults and the order-number hook
  (`"PZ"` followed by the count plus one, padded to six digits), and the
  ingredient item.
- **the pizza builder wizard**: step gating, vegetable and meat toggles, the
  price refresh, and the one-item order it posts.
- **the inventory page's chip colours.**

The stored collections are sequences. The catalog is a `seq<Item>` in the
store's natural order with unique ids. `$in` queries and unsorted finds return
documents in that order. The order collection is a `seq<Order>`, and an
order's id is its position, since orders are never deleted. State that the
routes change in place lives in the class `Shop.Shop`: the catalog, the
orders, the log of real-time notifications, and the next item id. The wizard's
component state is the class `Builder.Builder`. Time (`now`), the gateway's
expected signature and the gateway order id are parameters.

Files: `common.dfy` (Option, Result, JavaScript truthiness), `text.dfy`
(decimal text, padding, join/split, first-occurrence replace, string order),
`catalog.dfy`, `order_model.dfy`, `pricing.dfy`, `stock.dfy`, `shop.dfy`,
`listing.dfy`, `reporting.dfy`, `builder.dfy`, `colors.dfy`.

## Model

| member | source | states |
|---|---|---|
| Catalog.ParseCategory | models/Pizza.js:20-24 | the category enum: a string is accepted exactly when it is the name of one of the five categories |
| Catalog.NewItem | models/Pizza.js:4-36 | a document is built iff name, description, basePrice and a valid category are given; otherwise the save fails; image, isAvailable, stock and threshold take their defaults (placeholder image, true, 100, 20) when absent |
| Catalog.IndexOf | routes/inventory.js:83-86 | `findById`: the position of the document with that id, or none when no document has it |
| Catalog.IndexOfUnique | routes/inventory.js:83 | with unique ids the lookup finds exactly the document holding the id |
| Catalog.Find | routes/orders.js:62-63 | `findById` returns a document of the catalog with that id, or nothing exactly when no document has it |
| OrderModel.ParseStatus | models/Order.js:56-60 | the status enum: accepted exactly when the string names one of the six statuses |
| OrderModel.ParsePaymentStatus | models/Order.js:61-65 | the payment-status enum: accepted exactly for pending, paid, failed, refunded |
| OrderModel.NewOrder | models/Order.js:56-75 | a new order starts pending, payment pending, with no number, payment id or estimate, holding the given user, lines, total and delivery address, and no notes |
| OrderModel.OrderNumber | models/Order.js:84 | the number is "PZ" followed by at least six digits |
| OrderModel.OrderNumberParses | models/Order.js:83-84 | the digits after "PZ" read back as count + 1 |
| OrderModel.OrderNumberLength | models/Order.js:84 | below the millionth order the number is exactly eight characters |
| OrderModel.OrderNumberInjective | models/Order.js:83-84 | distinct counts give distinct numbers |
| OrderModel.AssignOrderNumber | models/Order.js:81-87 | the hook never overwrites a number already set, and otherwise sets one whose digits read as count + 1 |
| Pricing.Resolve | routes/pizza.js:134-140 | an absent id finds nothing; a found document carries the id and is in the catalog; nothing is found only when no document has the id |
| Pricing.FindIn | routes/orders.js:59 | the `$in` query returns exactly the catalog documents whose id is requested, each once |
| Pricing.FindInAgrees | routes/orders.js:59 | only the set of requested catalog ids matters: repeats, order and unknown ids do not change the result |
| Pricing.RepeatedIdChargedOnce | routes/orders.js:58-60 | a vegetable or meat id sent twice is charged once |
| Pricing.UnknownIdAddsNothing | routes/orders.js:56-71 | an id with no catalog document adds nothing to the unit price, in any slot, and raises no error |
| Pricing.SumPrices | routes/orders.js:60 | the prices added by one `forEach` over found documents; never negative when no price is |
| Pricing.UnitPrice | routes/orders.js:52-71 | the unit price of a selection is never negative when no catalog price is |
| Pricing.Breakdown | routes/pizza.js:130-185 | every breakdown entry carries the name and the price of a catalog document |
| Pricing.BreakdownMatchesUnitPrice | routes/pizza.js:130-185 | the breakdown's prices add up to the unit price the order route charges |
| Pricing.BreakdownSlotOrder | routes/pizza.js:133-176 | breakdown entries come base, sauce, cheese, then vegetables, then meats |
| Pricing.EmptySelection | routes/pizza.js:130-185 | an empty selection costs 0 and has an empty breakdown |
| Pricing.TotalOfEntries | routes/pizza.js:163-175 | the entries of a found list add up to the sum of its prices |
| Pricing.CalculatePrice | routes/pizza.js:126-186 | the route's loop yields exactly the specified breakdown, its total is the unit price, and the total is the sum of the breakdown |
| Pricing.AddOne | routes/pizza.js:134-158 | one single-id block adds the resolved price, if any, and one entry |
| Pricing.AddQueried | routes/pizza.js:161-176 | a vegetable or meat block adds the prices of and one entry for each document the `$in` query finds; an empty list skips the query and adds nothing |
| Pricing.AddEach | routes/pizza.js:161-176 | one `forEach` over found documents adds their prices and one entry each, in order |
| Pricing.UnitPriceOf | routes/orders.js:52-71 | the create-order helper calls compute exactly the unit price |
| Stock.Inc | routes/orders.js:124 | `$inc` keeps the catalog's length and ids |
| Stock.WeightedCountIsProduct | routes/orders.js:128-133 | every occurrence of an id in a component array takes the full line quantity |
| Stock.UnmentionedUntouched | routes/orders.js:121-134 | a catalog entry no line mentions keeps its stock through the auto-confirmation |
| Stock.DemandOfUnmentioned | routes/orders.js:121-134 | lines that never mention an id demand none of it |
| Stock.UnlistedCountsNothing | routes/orders.js:128-133 | an id absent from a component array is not decremented by its loop |
| Stock.VerifyThenCancelRestores | routes/orders.js:220-225 | cancelling after payment verification gives the catalog back exactly, since both touch the same representative links by the same amounts |
| Stock.AutoConfirmThenCancelKeepsSauce | routes/orders.js:122-134 | after an auto-confirmation, cancelling does not give back a sauce that is not the line's representative: it stays down by the line quantity |
| Stock.StockCanGoNegative | routes/orders.js:124 | there is no floor: confirming more units of a cheese than are left takes its stock below zero |
| Shop.Quantity | routes/orders.js:49 | the stored quantity is at least 1; a given quantity of 1 or more is kept, and a missing, zero or negative one becomes 1 |
| Shop.Representative | routes/orders.js:76-77 | the line's link is the first present of base, sauce and cheese, and there is none only when all three are absent |
| Shop.Stored | models/Order.js:14-51 | once every link is present, the drafted lines are stored one for one, and their total is unchanged |
| Shop.PriceItems | routes/orders.js:45-85 | one line per requested item, with the clamped quantity, the customizations as sent, the representative link and price = catalog unit price × quantity; the total is the sum of the line prices |
| Shop.PricedLinks | routes/orders.js:76-84 | a priced line lacks its `pizza` link exactly when its item names no base, sauce or cheese |
| Shop.PricedStored | routes/orders.js:76-85 | once every link is present, the stored lines are exactly the ones create-order promises for the items and the catalog |
| Shop.PriceAndCheck | routes/orders.js:45-111 | no lines come out exactly when some item names no base, sauce or cheese; otherwise every line has its link and a quantity of at least 1, the total is the sum of the line prices, and the stored lines are the promised ones |
| Shop.FinalAddress | routes/orders.js:87-100 | the address sent wins; otherwise the account's saved address with the account phone when it has a street; otherwise none |
| Shop.WithStatus | routes/admin.js:128-135 | any status from any status; in_kitchen sets the estimate to now + 20 min and out_for_delivery to now + 10 min; other statuses keep it; no other field changes |
| Shop.StatusMessage | routes/admin.js:144 | the notification text is the fixed prefix followed by the status with its first underscore, if any, shown as a space and every other character kept |
| Shop.StatusMessageReplacesFirst | routes/admin.js:144 | only the first underscore is replaced: the rest of the status keeps its underscores, so `out_for_delivery` is shown as `out for_delivery` |
| Shop.PlacedNumbersDistinct | models/Order.js:11 | orders placed by the shop never share an order number |
| Shop.CreateFields | routes/inventory.js:52-62 | create passes name, description, price, category and image as given; stock becomes 100 and threshold 20 when missing or 0; isAvailable is not passed |
| Shop.Edited | routes/inventory.js:88-98 | name, description, basePrice, category and image are overwritten only by truthy values, so basePrice cannot become 0; stock, threshold and isAvailable are overwritten whenever present, including 0 and false; a category outside the enum fails the save |
| Shop.EditedEmpty | routes/inventory.js:88-98 | an edit that sends no fields leaves the item unchanged |
| Shop.EditedIdempotent | routes/inventory.js:88-98 | sending the same edit twice gives the same item as sending it once |
| Shop.RemoveAtKeepsOthers | routes/inventory.js:120 | deleting a document removes exactly the documents with its id and keeps ids unique |
| Shop.Shop.constructor | routes/orders.js:19-20 | an empty shop whose two switches are the payments-disabled and test-mode settings read at start-up |
| Shop.Shop.Dec | routes/orders.js:124 | a `$inc` of minus the quantity on the document with that id only; an absent id changes nothing |
| Shop.Shop.DecEach | routes/orders.js:128-133 | the loop over one component array lowers each entry by the quantity times its number of occurrences |
| Shop.Shop.DecLine | routes/orders.js:123-133 | one line lowers each entry by the line's use of it |
| Shop.Shop.ConsumeLines | routes/orders.js:122-134 | the auto-confirmation loop leaves the catalog lowered by every component occurrence of every line, and nothing else changed |
| Shop.Shop.ShiftRepresentatives | routes/orders.js:220-225 | verification lowers, and cancellation raises, only each line's representative, by the line quantity |
| Shop.Shop.CreateOrder | routes/orders.js:36-176 | empty items are refused with nothing changed; a line with no base, sauce or cheese fails the save with nothing changed; otherwise one order is appended, numbered from the count, priced from the catalog and addressed as above; with payments disabled it is paid and confirmed with a 30-minute estimate, every component is taken from stock and the owner is notified; otherwise it stays pending with stock untouched and a payment intent for total × 100 INR, receipt = order number |
| Shop.Shop.Submit | routes/orders.js:102-170 | one order is appended with the lines and total given, numbered from the count; with payments disabled it is confirmed and paid at once with stock and notifications as for CreateOrder; otherwise it stays pending with a payment intent for the total × 100 |
| Shop.Shop.Place | routes/orders.js:102-111 | the new order is appended pending, numbered by the hook from the current count, and the shop's invariant holds |
| Shop.Shop.AutoConfirm | routes/orders.js:114-142 | paid, confirmed, mock payment id, now + 30 min; stock lowered by every component occurrence; one notification |
| Shop.Shop.VerifyPayment | routes/orders.js:181-244 | outside test mode, missing fields or a wrong signature are refused; an unknown order is not found and another user's order is forbidden, each with nothing changed; otherwise the order becomes paid and confirmed with a 30-minute estimate, only the representatives are taken from stock, and the owner is notified |
| Shop.Shop.MarkPaid | routes/orders.js:211-233 | the order becomes paid and confirmed with the payment id given and a 30-minute estimate, only the representatives leave stock, and the owner is notified |
| Shop.Shop.CancelOrder | routes/orders.js:298-330 | unknown, foreign, delivered or cancelled orders are refused with nothing changed; otherwise the status becomes cancelled and each line's representative gets its quantity back, so a second cancel is refused |
| Shop.Shop.UpdateStatus | routes/admin.js:114-156 | a status outside the six is refused; an unknown order is not found; otherwise only status and estimate change, the catalog is never touched, and the owner is notified |
| Shop.Shop.SetStatus | routes/admin.js:128-145 | only that order's status and estimate change, as WithStatus says, and one notification goes to the order's owner |
| Shop.Shop.CreateItem | routes/inventory.js:50-74 | the item is appended with the next id iff the schema accepts the defaulted fields; otherwise nothing changes |
| Shop.Shop.EditItem | routes/inventory.js:79-108 | an unknown id is not found; otherwise the document at that id becomes its edit, unless the edit fails validation; nothing else changes |
| Shop.Shop.DeleteItem | routes/inventory.js:113-127 | an unknown id is not found and removes nothing; otherwise exactly the document with that id is removed |
| Shop.Shop.SetStock | routes/inventory.js:132-156 | a negative stock is refused before the lookup; an unknown id is not found; otherwise only that document's stock changes, to exactly the value given |
| Listing.CategoryRankIsNameOrder | routes/pizza.js:15 | sorting on the category string orders the categories by their rank |
| Listing.LeTotal | routes/pizza.js:42 | the sort orders are total |
| Listing.LeTransitive | routes/pizza.js:42 | the sort orders are transitive |
| Listing.Sort | routes/inventory.js:29 | sorting permutes its input |
| Listing.SortSorted | routes/inventory.js:29 | sorting yields a sorted sequence |
| Listing.InsertSorted | routes/inventory.js:29 | inserting into a sorted sequence keeps it sorted |
| Listing.Filter | routes/admin.js:47-50 | a `find` filter keeps exactly the documents passing it |
| Listing.FilterUnique | routes/admin.js:47-50 | a filtered collection still has unique ids |
| Listing.CategoryListing | routes/pizza.js:36-49 | a category listing holds exactly the available items of that category with stock above 0 |
| Listing.CategoryListingSorted | routes/pizza.js:38-42 | a category listing is sorted by name |
| Listing.OfCategory | routes/pizza.js:18-24 | the items of one category, from a given sequence |
| Listing.GroupBy | routes/inventory.js:32-38 | the `reduce` builds an object with no repeated key and no more keys than items |
| Listing.GroupByCorrect | routes/inventory.js:32-38 | the grouping has no repeated key, has a key exactly for the categories present, puts under each key exactly that category's items in order, and has no empty group |
| Listing.GroupsAreCategories | routes/inventory.js:32-38 | every group is non-empty and holds exactly its category's items |
| Listing.GroupIntoKeyed | routes/inventory.js:33-37 | one reduce step keeps keys unique and adds the item's category as a key |
| Listing.GroupIntoOf | routes/inventory.js:36 | one reduce step pushes the item onto its own category's array only |
| Listing.OfCategorySorted | routes/pizza.js:15-24 | taking one category out of a sorted sequence keeps it sorted |
| Listing.Varieties | routes/pizza.js:10-24 | the varieties object has no repeated key and no empty array |
| Listing.VarietiesMembers | routes/pizza.js:10-24 | each varieties group holds exactly the available items of its category |
| Listing.VarietiesKeys | routes/pizza.js:18-24 | a varieties key exists exactly when some available item has that category |
| Listing.VarietiesSorted | routes/pizza.js:15-24 | each varieties group is sorted by name |
| Listing.Inventory | routes/inventory.js:20-38 | the inventory object has no repeated key, and with a truthy category parameter its only key is that category |
| Listing.InventoryCorrect | routes/inventory.js:20-45 | the inventory grouping has unique keys and no empty group, and places each item matching the category parameter under its own category |
| Listing.LowStockListing | routes/inventory.js:161-173 | the low-stock listing holds exactly the available items with stock at most 20, whatever their threshold |
| Listing.LowStockListingSorted | routes/inventory.js:166 | the low-stock listing is in ascending stock order |
| Listing.AlertLine | routes/inventory.js:187-189 | an alert line starts with "- " and the item's name, follows it with the category name in " (…): ", ends with " remaining", and the number before that reads back as the stock |
| Listing.AlertLines | routes/inventory.js:187-188 | one alert line per low item |
| Listing.LowStockAlert | routes/inventory.js:178-214 | the alert reports the number of low items, and carries a text exactly when there is at least one |
| Listing.AlertLineHasNoNewline | routes/inventory.js:188 | an alert line has no newline when the item name has none |
| Listing.AlertHasOneLinePerItem | routes/inventory.js:187-189 | the alert text splits back into exactly one `- name (category): N remaining` line per low item, in order |
| Reporting.CountWithStatus | routes/admin.js:18-30 | a per-status count never exceeds the number of orders |
| Reporting.StatusCountsPartition | routes/admin.js:15-30 | the six status counts add up to the total number of orders |
| Reporting.Revenue | routes/admin.js:33-37 | revenue is 0 when no order is paid, and non-negative when no total is negative |
| Reporting.RevenueAppend | routes/admin.js:33-36 | revenue is additive over the collection |
| Reporting.RecentOrders | routes/admin.js:40-44 | the ten newest orders, newest first, or all when fewer |
| Reporting.DashboardOf | routes/admin.js:12-64 | total = number of orders; each reported count is the number of orders with that status, and the five add up to the total minus the cancelled ones; revenue is the paid orders' revenue; recent orders are the ten newest; low-stock items are exactly the available items with stock at most 20 |
| Reporting.Matching | routes/admin.js:79-92 | the listing query matches exactly the orders whose status name equals a truthy status parameter, or all |
| Reporting.TotalPages | routes/admin.js:100 | `Math.ceil(total / limit)`: the least page count covering the total; null exactly when the limit is 0 |
| Reporting.ListOrders | routes/admin.js:75-103 | a negative skip fails in the store; otherwise at most `limit` orders, entry i being matching order (page − 1)·limit + i, newest first; a full page when enough orders remain, an empty one past the end; a zero limit returns every matching order |
| Reporting.ListOrdersQuery | routes/admin.js:77 | an absent page is 1 and an absent limit is 10, so a bare request gets page 1 holding the ten newest matching orders |
| Reporting.PageEntry | routes/admin.js:92-94 | entry i of a page, when the skip plus i is within the matching orders, exists and is the matching order the skip reaches |
| Reporting.PagesCoverListing | routes/admin.js:92-100 | every matching order appears on a page within totalPages, as entry j mod limit of page j div limit + 1 |
| Builder.Toggle | client/src/pages/PizzaBuilder.js:150-164 | an item whose id is selected is removed, every entry with that id; any other item is appended; afterwards the id is selected exactly when it was not before |
| Builder.ToggleKeepsUnique | client/src/pages/PizzaBuilder.js:150-164 | lists built by toggling never hold two entries with the same id |
| Builder.ToggleTwiceAbsent | client/src/pages/PizzaBuilder.js:150-156 | toggling an unselected item twice gives the list back |
| Builder.ToggleTwicePresent | client/src/pages/PizzaBuilder.js:150-156 | toggling a selected item twice moves it to the end of the list |
| Builder.RemoveOne | client/src/pages/PizzaBuilder.js:153 | in a list with distinct ids, the filter drops exactly the toggled entry |
| Builder.MissingAt | client/src/pages/PizzaBuilder.js:127-139 | Next reports a missing selection exactly at step 0 without base, step 1 without sauce, step 2 without cheese, with that step's message |
| Builder.ServerReadsPayload | routes/orders.js:49-77 | the server prices the posted item as one pizza and links it to the base id the client sent as `pizza` |
| Builder.Builder.ReviewOrderReceived | client/src/pages/PizzaBuilder.js:179-191 | the order built at the review step is read by the server as one pizza filed under the selected base |
| Builder.Builder.constructor | client/src/pages/PizzaBuilder.js:50-72 | the wizard starts at step 0 with nothing selected, no error and price 0 |
| Builder.Builder.Selection | client/src/pages/PizzaBuilder.js:112-118 | the ids the price request sends are those of the current selections |
| Builder.Builder.Refresh | client/src/pages/PizzaBuilder.js:80-84 | with anything selected the price becomes the calculate-price total; with nothing it keeps its value |
| Builder.Builder.SelectBase | client/src/pages/PizzaBuilder.js:265 | the clicked base is selected and the price refreshed |
| Builder.Builder.SelectSauce | client/src/pages/PizzaBuilder.js:301 | the clicked sauce is selected and the price refreshed |
| Builder.Builder.SelectCheese | client/src/pages/PizzaBuilder.js:331 | the clicked cheese is selected and the price refreshed |
| Builder.Builder.ToggleVeggie | client/src/pages/PizzaBuilder.js:150-156 | the vegetable list is toggled, stays free of repeated ids, and the price refreshes when anything is selected |
| Builder.Builder.ToggleMeat | client/src/pages/PizzaBuilder.js:158-164 | the meat list is toggled, stays free of repeated ids, and the price refreshes when anything is selected |
| Builder.Builder.HandleNext | client/src/pages/PizzaBuilder.js:127-143 | with the step's selection missing, the error is set and the step stays; otherwise the error clears and the step advances; the step stays within 0..5 |
| Builder.Builder.HandleBack | client/src/pages/PizzaBuilder.js:145-148 | the error clears and the step goes back one; Back is disabled at step 0 |
| Builder.Builder.HandleOrder | client/src/pages/PizzaBuilder.js:166-172 | a zero price is refused with the error message; otherwise the confirmation opens |
| Builder.Builder.Payload | client/src/pages/PizzaBuilder.js:179-191 | the order posts exactly one item, with quantity 1, `pizza` the base id, and the selected ids as customizations; it cannot be built while base, sauce or cheese is missing |
| Builder.Builder.ReviewHasPayload | client/src/pages/PizzaBuilder.js:127-143 | the step gating ensures that at the review step base, sauce and cheese are all selected, so the order can be built |
| Colors.CategoryColor | client/src/pages/admin/AdminInventory.js:166-181 | a colour other than 'default' exactly for the five category names |
| Colors.CategoryColorsDistinct | client/src/pages/admin/AdminInventory.js:166-181 | the five categories get five different colours |
| Colors.StockColor | client/src/pages/admin/AdminInventory.js:183-187 | 'error' iff stock ≤ threshold; 'warning' iff threshold < stock ≤ 2·threshold; 'success' iff stock is above both |
| Colors.StockColorMonotone | client/src/pages/admin/AdminInventory.js:183-187 | for a fixed threshold, more stock never moves an item to a worse band |
| Text.DecimalRoundTrip | models/Order.js:84 | `String(n)` reads back as n |
| Text.PadStart | models/Order.js:84 | `padStart` keeps the string as the suffix and fills up to the width |
| Text.ZeroPaddingValue | models/Order.js:84 | leading zeros do not change the number a digit string denotes |
| Text.IntToStringRoundTrip | routes/orders.js:116 | the text of an integer in a template literal reads back as that integer |
| Text.SplitJoin | routes/inventory.js:189 | splitting a newline join gives back the lines, when none holds a newline |
| Text.ReplaceFirst | routes/admin.js:144 | `replace` with a one-character pattern changes only the first occurrence, and nothing when there is none |
| Text.ReplaceFirstAt | routes/admin.js:144 | in `a + [c] + b` with no c in a, exactly the shown occurrence is replaced |
| Text.StrLeTotal | routes/pizza.js:42 | the store's string order is total |
| Text.StrLeTransitive | routes/pizza.js:42 | the store's string order is transitive |
| Text.StrLeAntisymmetric | routes/pizza.js:42 | the store's string order is antisymmetric |

## Left out

- HTTP routing, authentication middleware, status codes and `populate` are
  not modelled. Results are `Result` values with `BadRequest`, `Forbidden`,
  `NotFound` or `ServerError`.
- Real-time notifications are modelled only as an appended log of events
  (recipient, order id, status, message). Socket delivery is not modelled.
- The payment gateway and the HMAC-SHA256 signature are outside the model.
  The expected signature and the gateway's order id are parameters.
- `Shop.Shop.CreateOrder`: only the test-mode switch chooses the mock
  payment intent. The case of a missing gateway client and gateway failures
  are not modelled.
- The two switches are booleans. Reading them from the environment, with
  their default of true and case-insensitive parsing, is not modelled.
- Email sending and scheduling are not modelled. Only the alert text and the
  count are.
- The clock is the parameter `now`. The two clock reads of one request are
  taken as the same instant.
- Concurrency is not modelled: the count-then-assign race of the
  order-number hook, and interleaved `$inc` updates. Every operation runs
  alone.
- Prices, quantities, stock and thresholds are integers, not
  floating-point numbers.
- The catalog and the orders are sequences, not maps, so that the store's
  natural order is kept. Order ids are positions.
- `Listing.Sort`: ties between equal keys are put in the order the model's
  insertion gives. The store does not promise any order for ties.
- `Reporting.RecentOrders`, `Reporting.Matching`: "newest first" is taken as
  reverse position in the collection. Sorting on `createdAt` promises no
  order among orders created in the same millisecond, and the model fixes
  one.
- `Reporting.ListOrders`: `page` and `limit` are numbers; when the query
  omits them, `Reporting.ListOrdersQuery` takes page 1 and limit 10. Query
  strings that are not numbers, and negative limits, are not modelled. The
  string a given `page` is echoed back as `currentPage` is modelled as the
  number. A zero limit means no limit, and totalPages is then null.
- `Shop.Shop.CreateOrder`, `Pricing.CalculatePrice`: the vegetable and meat
  fields are lists of ids. A single valid id sent in their place behaves as
  a one-element list: create-order prices it with `findById`, the stored
  order holds it as a one-element array whose stock auto-confirm takes
  down, and calculate-price's `$in` wraps it. The model takes such a body
  in its list form. An id that cannot be cast to an object id, in any
  component field, makes the store throw a cast error and the route answer
  500; that case is not modelled.
- `Shop.Shop.VerifyPayment`, `Shop.Shop.CancelOrder`,
  `Shop.Shop.UpdateStatus`, `Shop.Shop.EditItem`, `Shop.Shop.DeleteItem`,
  `Shop.Shop.SetStock`: ids are positions, so an id is either found or
  NotFound. An order or item id that cannot be cast to an object id makes
  the lookup throw and the route answer 500; that case is not modelled.
- `Shop.Edited`: `stock`, `threshold` and `isAvailable` are optional values.
  A body that sends `null` for one of them gets past the `!== undefined`
  test and stores null. That case is not modelled.
- `Shop.Shop.SetStock`: a missing or non-numeric `stock` in the body is not
  modelled. The value is an integer.
- `Shop.Quantity`: non-numeric and fractional quantities are not modelled.
  The source keeps 2.5 as 2.5 and turns 0.5 into 1, and a stored
  fractional quantity then scales the line price and the stock `$inc`.
- `Shop.Edited`, `Shop.CreateFields`: `stock` and `threshold` are integers.
  Fractional values, which the schema's Number type accepts, are not
  modelled.
- `Builder.ToggleTwiceAbsent`: the round trip is stated only for an item
  that is not selected. For a selected item the source moves it to the end
  of the list instead, as `Builder.ToggleTwicePresent` proves.
- `Builder.Builder.HandleNext`, `Builder.Builder.HandleBack`,
  `Builder.Builder.HandleOrder`: the UI hides Next at the review step,
  disables Back at step 0, and shows Place Order only at the review step.
  HandleNext and HandleBack take the first two as preconditions.
- `Builder.Builder.Refresh`: the price request runs synchronously within the
  handler that changed the selection. Its asynchrony, its swallowed errors
  and the breakdown kept on the page are not modelled.
- The rest of the builder page is not modelled: loading the ingredient
  lists, loading flags, success messages, the checkout widget after the
  order is posted, and navigation.
- Admin user management, the user's own order listings and the
  display-only client pages are not part of this model.
