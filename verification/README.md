# StockPulse business rules in Dafny

StockPulse is a React front end for a small inventory: items with a stock
quantity, replenishment orders, and an append-only `stock_updates` audit table,
all kept in a hosted database. The screens' event handlers and hooks hold a set
of business rules. This project states those rules as pure functions over an
abstract store and proves what they promise.

The store (`Model.Store`) is a map of items by id, a map of orders by id, and
the sequence of audit records. Every database call the model includes takes
its reply as a parameter of the function that makes it: a flag for "error or
not", an optional generated key, or an optional result set. A read that
returns no data leaves the screen showing what it showed before, which covers
the refetches after a write too. Dates and timestamps are integers, and the
clock reading `now` is a parameter. What each screen shows is part of its state, so a stale list is
something the model can talk about.

Modules follow the source files:

- `StockMovement`, `DiscardStock`, `StockUsage`: the withdrawal screens. Each
  runs an amount guard, writes the new quantity, then inserts one audit record.
- `Orders`, `OrderDetails`, `CreateOrder`: the order hook, the order dialog
  (home of the pending-only guard, which reads the listed row) and the order
  form.
- `InventoryQuery`, `InventoryTable`, `Search`, `StockCount`: the inventory
  hook's query, the table's sort and page controls, the screens' search box,
  and the stock-count dialog.
- `SettingsData`, `Users`: the local list updates of the settings and
  user-role hooks.
- `InventoryStats`, `Grouping`, `Reports`, `ExpiringItems`, `RecentActivity`:
  the derived views.
- `StoreMachine`: all stock-changing steps as one machine. Its invariant
  holds along every run: rows sit under their own keys, no stock is negative,
  every order is for at least one unit, audit records are numbered in order,
  and none is an 'adjusted' record.

Shared helpers:

- `Text`: ASCII case mapping, substring search and decimal text.
- `Sorting`: an insertion sort that stands for the database's `ORDER BY`.
- `Wrappers`: `Option`.

## Model

| member | source | states |
|---|---|---|
| `Model.ParseStatus` | src/hooks/useOrders.ts:13 | a status string is accepted exactly when it is 'pending', 'received' or 'cancelled', and prints back as itself |
| `Model.StatusRoundTrip` | src/hooks/useOrders.ts:13 | every order status survives printing and parsing |
| `Model.ParseUpdateType` | src/hooks/useOrders.ts:75 | an update type is accepted exactly when it is one of the four strings the screens write and the reports select, and prints back as itself |
| `Model.UpdateTypeRoundTrip` | src/hooks/useOrders.ts:75 | every update type survives printing and parsing |
| `Model.SetQty` | src/pages/DiscardStock.tsx:32-37 | an update by id changes the quantity of that one row; every other row, every order and the audit trail stay as they were |
| `Model.AppendUpdate` | src/pages/DiscardStock.tsx:42-49 | an insert appends exactly one record after the existing ones and leaves items and orders alone; the record holds the next serial id, the inserted item, change, type and remarks, the given `update_date` or else the insertion time, and the insertion time as `created_at` |
| `Text.Lower` | src/pages/StockCount.tsx:19-20 | `toLowerCase` maps each character and keeps the length |
| `Text.Capitalize` | src/pages/StockUsage.tsx:51 | the first character is upper-cased and the rest is kept |
| `Text.Includes` | src/pages/StockCount.tsx:19-20 | `includes` holds exactly when the term occurs at some position of the text |
| `Text.ParseDecimalText` | src/hooks/useRecentActivity.ts:31 | a number written in decimal reads back as the same number |
| `Search.FilterItems` | src/pages/StockCount.tsx:18-21 | a row is listed exactly when its lower-cased name or reference number contains the lower-cased term; the result is an order-preserving sublist |
| `Search.EmptyTermKeepsAll` | src/pages/StockCount.tsx:18-21 | an empty search term keeps every row |
| `Search.SearchIgnoresCase` | src/pages/StockCount.tsx:19-20 | two terms that differ only in case list the same rows |
| `Search.FilterIdempotent` | src/pages/DiscardStock.tsx:18-21 | filtering the filtered list again changes nothing |
| `Search.FilterKeepsOrder` | src/pages/StockUsage.tsx:20-23 | filtering a list sorted by any order leaves it sorted by that order |
| `StockMovement.SelectableIffSomeAmountAccepted` | src/pages/DiscardStock.tsx:115 | with non-negative stock, the rows whose button is enabled are exactly the rows for which some amount passes the guard |
| `StockMovement.Withdraw` | src/pages/DiscardStock.tsx:27-51 | an amount outside 1..shown quantity, or a failed write, changes nothing. A write sets the row to the shown quantity minus the amount, never negative. The record of -amount is appended only when its insert succeeds. No other row changes. |
| `StockMovement.WithdrawKeepsStockNonNegative` | src/pages/DiscardStock.tsx:28-37 | a withdrawal never makes any stock negative |
| `StockMovement.CompletedWithdrawBalances` | src/pages/DiscardStock.tsx:32-49 | when the shown row is the stored row, a completed withdrawal moves the stock by exactly what its audit record says |
| `StockMovement.InsertFailureUnbalances` | src/pages/DiscardStock.tsx:39-51 | a write whose record insert fails leaves the stock moved and the audit trail not: partial completion shows |
| `StockMovement.Refresh` | src/pages/DiscardStock.tsx:54 | after a refetch every listed row is the stored row, and no listed row that still exists is lost |
| `StockMovement.RefreshKeepsFreshList` | src/pages/DiscardStock.tsx:54 | refetching a list that already shows the stored rows gives it back unchanged |
| `StockMovement.Refetch` | src/hooks/useInventory.ts:52-57 | a successful refetch shows the stored rows; a failed one returns no data and the list stays as it was |
| `StockMovement.Pick` | src/pages/DiscardStock.tsx:113-115 | a row can be picked exactly when it is listed and has non-zero stock, and the dialog then holds that row; the usage screen's button (src/pages/StockUsage.tsx, lines 131-133) is the same |
| `DiscardStock.HandleDiscard` | src/pages/DiscardStock.tsx:23-62 | no pick or no amount, a rejected amount, or a failed write changes nothing. On success one 'discarded' record of -amount with the reason is appended and the dialog is cleared; the list shows the stored rows when the refetch succeeds and stays as it was otherwise. Any failed write keeps the dialog. |
| `DiscardStock.DiscardFromFreshListBalances` | src/pages/DiscardStock.tsx:23-62 | from a list that shows the stored rows, a completed discard is accounted for by its record; a successful refetch leaves the list showing the stored rows, a failed one leaves it stale |
| `DiscardStock.FailedRefetchOverwritesDiscard` | src/pages/DiscardStock.tsx:53-58 | when the refetch after a discard fails, the cleared dialog sits over a stale list: discarding 5 then 8 of 10 leaves 2 in stock while the audit trail records -13 |
| `StockUsage.UsageRemarks` | src/pages/StockUsage.tsx:51 | the remarks are "Daily usage update", "Weekly usage update" or "Monthly usage update" |
| `StockUsage.HandleUsage` | src/pages/StockUsage.tsx:25-61 | the same guard and write as a discard. On success one 'shipped' record of -amount is appended, dated by the chosen date, with the period's remarks. The pick and amount are cleared, the period and date stay, and the list is left as fetched. |
| `StockUsage.HandleUsageRefetching` | src/pages/StockUsage.tsx:25-61 | the same store change and form reset as the handler; after a completed usage a successful refetch shows the stored rows, and in every other case the list stays as it was |
| `StockUsage.RefetchingUsageBalances` | src/pages/StockUsage.tsx:34-54 | from a list showing the stored rows, a completed usage is accounted for by its record and the list stays current |
| `StockUsage.StaleListOverwritesUsage` | src/pages/StockUsage.tsx:56-57 | two usages of the same row without a refetch leave a stock that contradicts the audit trail |
| `StockUsage.RefreshedListRejectsOverdraw` | src/pages/StockUsage.tsx:27-30 | with the refetch, the guard turns down the second usage that exceeds the remaining stock |
| `Orders.FetchOrders` | src/hooks/useOrders.ts:24-37 | the fetched orders are the stored rows, newest placement date first; a query that returns no data keeps the list shown |
| `Orders.RunIncrementStock` | src/hooks/useOrders.ts:51-54 | the procedure adds the amount to that item's stock; the row's other columns, every other row, the orders and the audit trail stay, and an unknown id changes nothing |
| `Orders.MarkReceived` | src/hooks/useOrders.ts:39-87 | when the `.single()` lookup gives no order (an unknown id, or a failed query) the call returns with no write and no error. Then come the increment, the status update and the record insert; each error stops the rest and is rethrown. The quantity ordered is added once, the order becomes received with the date set, and one 'received' record is appended. |
| `Orders.ReceivedRemarksNamesOrder` | src/hooks/useOrders.ts:76 | the remarks begin with "Order " and contain the order id |
| `Orders.ReceiveBalances` | src/hooks/useOrders.ts:51-79 | a completed receipt is accounted for by its record |
| `Orders.ReceiveKeepsStockNonNegative` | src/hooks/useOrders.ts:51-56 | receiving an order of non-negative quantity keeps all stock non-negative |
| `Orders.ReceiveTwiceAddsTwice` | src/hooks/useOrders.ts:39-56 | the hook does not look at the status: receiving twice adds the quantity twice and writes two records |
| `Orders.HookReceivesCancelledOrder` | src/hooks/useOrders.ts:42-67 | the hook marks a cancelled order received |
| `OrderDetails.ReceivedDateCell` | src/components/orders/OrderDetailsModal.tsx:39 | the received date shows as the empty string exactly when it is missing |
| `OrderDetails.ClickMarkReceived` | src/components/orders/OrderDetailsModal.tsx:56-63 | without the button nothing is called; with it the hook runs for the shown order's id (the click also closes the dialog before the hook runs, since `onClose()` is evaluated as an argument) |
| `OrderDetails.OnlyPendingIsReceivable` | src/components/orders/OrderDetailsModal.tsx:56 | the receive action is offered exactly when the order is neither cancelled nor received |
| `OrderDetails.ClickRespectsStatusMachine` | src/components/orders/OrderDetailsModal.tsx:56-63 | through a dialog showing the stored order, an order's status only stays or moves from pending to received |
| `OrderDetails.CompletedClickShowsDate` | src/components/orders/OrderDetailsModal.tsx:34-42 | after a completed receive (which refetches the list), a dialog reopened from the refetched row shows the received date, the day the receive ran, and no longer offers the action |
| `OrderDetails.SecondClickDoesNothing` | src/components/orders/OrderDetailsModal.tsx:56-63 | after a completed receive (which refetches the list), a second click through a dialog reopened from the refetched row calls nothing |
| `OrderDetails.StaleDialogReceivesTwice` | src/hooks/useOrders.ts:39-87 | when a step after the increment throws, the list is not refetched, so a dialog reopened from the list row still offers the receive. The store then holds the order as pending (status update failed) or received (record insert failed). A second click adds the ordered quantity again, and the audit trail no longer matches the stock |
| `CreateOrder.NewItem` | src/components/orders/CreateOrderForm.tsx:44-56 | the inserted item carries the typed fields and no stock |
| `CreateOrder.NewOrder` | src/components/orders/CreateOrderForm.tsx:63-70 | the inserted order is pending, not received, for the given item, quantity and user |
| `CreateOrder.HandleSubmit` | src/components/orders/CreateOrderForm.tsx:36-80 | a failed item insert stops the submit. The order names the new item's id, or else the selected one. The page is notified exactly when the needed inserts succeeded. No record is written. |
| `CreateOrder.SubmitOnlyAdds` | src/components/orders/CreateOrderForm.tsx:36-80 | with fresh keys a submit only adds rows and keeps every existing item and order |
| `CreateOrder.OrderFailureLeavesOrphanItem` | src/components/orders/CreateOrderForm.tsx:58-72 | if the item insert succeeds and the order insert fails, the new item stays with no order and nobody is notified |
| `CreateOrder.SubmitKeepsInvariants` | src/components/orders/CreateOrderForm.tsx:36-80 | a submit keeps rows under their keys, stock non-negative and every order at one unit or more |
| `InventoryQuery.PageRange` | src/hooks/useInventory.ts:34-37 | page p of size s requests exactly s rows, and for a valid page both ends are non-negative and in order |
| `InventoryQuery.PagesAreAdjacent` | src/hooks/useInventory.ts:34-37 | page 1 starts at row 0 and each page starts right after the one before |
| `InventoryQuery.PagesAreDisjoint` | src/hooks/useInventory.ts:34-37 | the ranges of two different pages do not overlap |
| `InventoryQuery.Page` | src/hooks/useInventory.ts:34-37 | a page holds at most page-size rows |
| `InventoryQuery.PagesTile` | src/hooks/useInventory.ts:34-37 | pages 1 to n together are exactly the first n times size rows |
| `InventoryQuery.Conditions` | src/hooks/useInventory.ts:39-50 | each non-empty filter adds exactly one condition and an empty one adds none |
| `InventoryQuery.ConditionsMeanFilters` | src/hooks/useInventory.ts:39-50 | a row meets all the conditions exactly when it passes every set filter |
| `InventoryQuery.Select` | src/hooks/useInventory.ts:39-52 | a row is returned exactly when it meets every condition |
| `InventoryQuery.ColumnOrderIsTotalOrder` | src/hooks/useInventory.ts:33 | each sortable column, in either direction, orders rows totally and transitively |
| `InventoryQuery.Ordered` | src/hooks/useInventory.ts:33 | the selected rows, all of them and only them, sorted by the chosen column and direction |
| `InventoryQuery.Fetch` | src/hooks/useInventory.ts:23-58 | data comes back exactly when the reply is no error, the sort column is known and the search term has no ',' or ')'; then at most page-size rows, sorted, each a stored row passing the filters |
| `InventoryQuery.InitialQuery` | src/hooks/useInventory.ts:8-21 | the first query has no conditions, sorts by name ascending and asks for rows 0 to 9 |
| `InventoryQuery.ScreenList` | src/pages/DiscardStock.tsx:18-21 | the withdrawal and count screens list at most ten rows, each a stored row matching the term, and none when the first fetch fails |
| `InventoryQuery.ScreensMissRows` | src/hooks/useInventory.ts:18-21 | with more than ten rows, some row never appears on those screens, whatever the search term |
| `InventoryQuery.ScreenListAllRows` | src/pages/DiscardStock.tsx:18-21 | every stored row matching the term is listed, and only those, in name order |
| `InventoryQuery.ApplyPatch` | src/pages/StockCount.tsx:28-36 | the seven edited fields take the new values and every other field is kept |
| `InventoryQuery.UpdateItem` | src/hooks/useInventory.ts:64-72 | an error throws with no change and no refetch. Success refetches and changes only the edited row. |
| `InventoryTable.HandleSort` | src/components/inventory/InventoryTable.tsx:25-31 | the clicked column becomes the sort column; descending exactly when it was already the column and ascending |
| `InventoryTable.SortClicksAlternate` | src/components/inventory/InventoryTable.tsx:26-29 | repeated clicks on one column alternate the direction |
| `InventoryTable.SortIcon` | src/components/inventory/InventoryTable.tsx:33-38 | an icon appears exactly on the sorted column and shows its direction |
| `InventoryTable.IconFollowsClick` | src/components/inventory/InventoryTable.tsx:33-38 | after a click the icon is on the clicked column and on no other |
| `InventoryTable.HeaderSortColumn` | src/components/inventory/InventoryTable.tsx:54 | the column a header asks for is the header text lower-cased |
| `InventoryTable.ClickHeader` | src/components/inventory/InventoryTable.tsx:54 | a header click changes only the sort state, as the toggle says |
| `InventoryTable.OnlyNameHeaderSorts` | src/components/inventory/InventoryTable.tsx:51-59 | 'Ref Num', 'Qty. in Stock' and 'View' ask for columns that do not exist, so the fetch returns no data whatever the reply while the icon moves; only 'Name' sorts |
| `InventoryTable.IntendedSortColumn` | src/components/inventory/InventoryTable.tsx:51 | every header but 'View' names a real column, and other text names none |
| `InventoryTable.ClickHeaderIntended` | src/components/inventory/InventoryTable.tsx:54 | a click on a sortable header sorts by its column; any other click changes nothing |
| `InventoryTable.IntendedClicksKeepFetching` | src/components/inventory/InventoryTable.tsx:51-59 | with header-to-column mapping, no header click breaks a working query: the same reply fetches the clicked state |
| `InventoryTable.ClickPrev` | src/components/inventory/InventoryTable.tsx:88-89 | Previous, enabled off page 1, moves back one page and keeps the page valid |
| `InventoryTable.ClickNext` | src/components/inventory/InventoryTable.tsx:95-96 | Next, enabled on a full page, moves on one page and keeps the page valid |
| `InventoryTable.ShortPageIsLast` | src/components/inventory/InventoryTable.tsx:96 | a page shorter than the page size is the last: the next page is empty |
| `StockCount.FormPatch` | src/pages/StockCount.tsx:28-36 | an empty expiry date makes an update the database refuses; otherwise the count sent is the counted figure, never negative, with the date, category, location, number fields and remarks as entered |
| `StockCount.Open` | src/pages/StockCount.tsx:96 | the dialog opens for any listed row, whatever its stock |
| `StockCount.HandleUpdateItem` | src/pages/StockCount.tsx:23-44 | with no open dialog, an error, or an empty expiry date nothing changes and the dialog stays. Success writes the seven fields of that row only and closes the dialog; the list shows the stored rows when the hook's refetch succeeds and stays as it was otherwise. No audit record is written. |
| `StockCount.CountKeepsStockNonNegative` | src/pages/StockCount.tsx:118-125 | a count never makes stock negative |
| `StockCount.LaterCountWins` | src/pages/StockCount.tsx:28-36 | counting twice leaves what the second count says |
| `StockCount.UndatedItemNeedsDate` | src/pages/StockCount.tsx:160-166 | the date input opens empty for an item without an expiry date, and submitting it so writes nothing and keeps the dialog open |
| `StockCount.CountBypassesLedger` | src/pages/StockCount.tsx:38-39 | a count that changes the quantity leaves the audit trail out of step |
| `SettingsData.NameOrderIsTotalOrder` | src/hooks/settings/useSettingsData.ts:17 | ordering rows by name is total and transitive |
| `SettingsData.FetchData` | src/hooks/settings/useSettingsData.ts:12-23 | a fetch yields the table's rows ordered by name; no data keeps the copy |
| `SettingsData.AddRow` | src/hooks/settings/useSettingsData.ts:25-37 | success appends the inserted row at the end and keeps the others; failure keeps the list and reports false |
| `SettingsData.UpdateRow` | src/hooks/settings/useSettingsData.ts:39-52 | success replaces exactly the rows with that id, in place; failure keeps the list and reports false |
| `SettingsData.DeleteRow` | src/hooks/settings/useSettingsData.ts:54-65 | success removes exactly the rows with that id and keeps the rest in order; failure keeps the list and reports false |
| `SettingsData.DeleteKeepsNameOrder` | src/hooks/settings/useSettingsData.ts:61 | deleting from a name-ordered list keeps it name-ordered |
| `SettingsData.AddCanBreakNameOrder` | src/hooks/settings/useSettingsData.ts:33 | appending can leave the list out of name order until the next fetch |
| `SettingsData.DeleteUndoesAdd` | src/hooks/settings/useSettingsData.ts:25-65 | deleting a row just added with a new id gives back the list before |
| `SettingsData.DeleteIdempotent` | src/hooks/settings/useSettingsData.ts:61 | deleting the same id twice is deleting it once |
| `SettingsData.UpdateIdempotent` | src/hooks/settings/useSettingsData.ts:48 | the same update applied twice is the update applied once |
| `Users.UpdateUserRole` | src/hooks/useUsers.ts:28-39 | on success the users with that id take the role and keep the other fields; everyone else and the length are kept; failure changes nothing |
| `Users.RoleOf` | src/hooks/useUsers.ts:35-37 | the role read for an id is the role of a user with that id, and there is one exactly when such a user exists |
| `Users.RoleReadsBack` | src/hooks/useUsers.ts:35-37 | after an update the id reads back the new role and every other id its old one |
| `Users.UpdateIdempotent` | src/hooks/useUsers.ts:35-37 | applying the same role update twice equals applying it once |
| `InventoryStats.CountLow` | src/hooks/useInventoryStats.ts:17-19 | the count is the number of items at or below their reorder level, at most the number of items |
| `InventoryStats.FetchStats` | src/hooks/useInventoryStats.ts:15-20 | a fetch sets the total to the number of items and the low count to the low items; no data keeps zeros; the value stays 0 |
| `InventoryStats.EmptyUnlevelledIsLow` | src/hooks/useInventoryStats.ts:18 | an item with no stock and no reorder level counts as low |
| `InventoryStats.RestockLowersCount` | src/hooks/useInventoryStats.ts:17-19 | raising one item above its level never raises the low count |
| `Grouping.GroupBy` | src/pages/Reports.tsx:61-85 | one sheet per distinct category, each holding its records' lines in fetch order, and as many lines in all as records |
| `Grouping.SheetsAreNonEmpty` | src/pages/Reports.tsx:63-66 | no sheet is empty |
| `Grouping.CategoryHasLines` | src/pages/Reports.tsx:61-80 | every record's line lands under its own category |
| `Grouping.LinesNonEmptyIsCategory` | src/pages/Reports.tsx:61-80 | a name with lines is the category of some record |
| `Reports.SelectedType` | src/pages/Reports.tsx:158 | the stock-count, usage and discard reports select 'adjusted', 'shipped' and 'discarded'; the others select no records |
| `Reports.StockReportsAreDisjoint` | src/pages/Reports.tsx:158 | no two stock reports select the same update type |
| `Reports.UpdateWindow` | src/pages/Reports.tsx:160-170 | weekly and monthly select from a week or month ago; custom selects the given day, or all days when none is given |
| `Reports.OrderBounds` | src/pages/Reports.tsx:106-110 | the placed-date range applies exactly when both ends are set |
| `Reports.OneBoundFiltersNothing` | src/pages/Reports.tsx:106-110 | with either end missing every order passes |
| `Reports.ReceivedCell` | src/pages/Reports.tsx:125 | a missing received date shows as '-' and only then |
| `Reports.UpdateRow` | src/pages/Reports.tsx:180-192 | count lines (Reports.tsx:180-192) repeat the change in both quantity columns; usage lines (Reports.tsx:245-257) and discard lines (Reports.tsx:308-317) show its absolute value |
| `Reports.Label` | src/pages/Reports.tsx:175-189 | the records are paired, in fetch order, with their category name and line (`Reports.Filed`); a record whose category, or for the reports that print them brand or location, cannot be read, or whose category is named after an inherited object key, stops the report |
| `Reports.InventorySheets` | src/pages/Reports.tsx:41-88 | every item is filed under its category name: one sheet per name, each holding exactly the lines of that category's items in fetch order; an unreadable category, brand or location, or a category named after an inherited object key, stops the report |
| `Reports.JoinOrders` | src/pages/Reports.tsx:95-99 | the inner join keeps exactly the orders whose item exists |
| `Reports.OrderSheets` | src/pages/Reports.tsx:90-137 | the joined orders within the range are filed by category: one sheet per name, each holding exactly the lines of that category's orders in fetch order, and every line comes from such an order; an unreadable category or one named after an inherited object key stops the report |
| `Reports.JoinUpdates` | src/pages/Reports.tsx:144-154 | the inner join keeps exactly the records whose item exists |
| `Reports.UpdateSheets` | src/pages/Reports.tsx:139-202 | the joined records of the report's type within the window are filed by category: one sheet per name, each holding exactly the lines of that category's records in fetch order, and every line comes from such a record; an unreadable category, brand or location, or a category named after an inherited object key, stops the report |
| `Reports.KeptRecordIsListed` | src/pages/Reports.tsx:175-200 | every record a stock report keeps appears, as its line, on the sheet named after its item's category |
| `Reports.InheritedKeyStopsReport` | src/pages/Reports.tsx:175-180 | one kept record filed under a category named, say, "constructor" stops a stock report, whatever the other records are |
| `Reports.UsageAndDiscardQuantitiesNonNegative` | src/pages/Reports.tsx:251-252 | usage and discard reports never show a negative quantity |
| `Reports.CountReportRepeatsChange` | src/pages/Reports.tsx:186-187 | the stock-count report's previous and updated columns always agree |
| `ExpiringItems.Classify` | src/components/dashboard/ExpiringItems.tsx:33-37 | red up to 30 days, orange from 31 to 60, yellow beyond |
| `ExpiringItems.ClassifyMonotone` | src/components/dashboard/ExpiringItems.tsx:33-37 | fewer days left is never less urgent |
| `ExpiringItems.Render` | src/components/dashboard/ExpiringItems.tsx:29-56 | one entry per item with its name and colour; the empty-list message appears exactly when there are none |
| `ExpiringItems.ExpiryOrderedCardIsUrgencyOrdered` | src/components/dashboard/ExpiringItems.tsx:29-37 | items listed by expiry show colours from most to least urgent |
| `RecentActivity.Describe` | src/hooks/useRecentActivity.ts:31 | the description is the type, " of ", unsigned decimal digits that read back as the size of the change, " units for " and the item name |
| `RecentActivity.DescribedQuantityReadsBack` | src/hooks/useRecentActivity.ts:31 | the quantity in a description is unsigned digits that read back as the size of the change |
| `RecentActivity.Newest` | src/hooks/useRecentActivity.ts:24-25 | at most five records from the store, newest first, and no record left out is newer than one shown |
| `RecentActivity.Activities` | src/hooks/useRecentActivity.ts:28-33 | one activity per record with id and date kept, or none when a record's item is gone |
| `RecentActivity.Feed` | src/hooks/useRecentActivity.ts:15-34 | no data, or a shown record whose item is gone, keeps what was shown; otherwise the feed holds one activity per record of the five newest, in order, with the record's id, date and description |
| `RecentActivity.FeedComesFromStore` | src/hooks/useRecentActivity.ts:15-34 | every activity shown has the id of a record in the store |
| `StoreMachine.Step` | src/pages/DiscardStock.tsx:23-62 | composes the store changes of the handlers in the rows above (discard, usage, receipt through the dialog, order creation, count): any step keeps rows under their keys, removes no row, adds rows only when creating an order, and appends at most one record |
| `StoreMachine.StepPreservesInvariant` | src/hooks/useOrders.ts:39-87 | composes the handlers in the rows above (withdrawal, receipt, order creation, count): each step keeps the store invariant |
| `StoreMachine.RunPreservesInvariant` | src/pages/StockUsage.tsx:27-39 | composes the handlers in the rows above: the invariant holds after any run of valid steps |
| `StoreMachine.CompletedStepBalances` | src/pages/StockUsage.tsx:34-54 | for both withdrawal screens (discard and usage, the rows above): a completed withdrawal from the stored row is accounted for by its record |
| `StoreMachine.CompletedDiscardIsReported` | src/pages/Reports.tsx:286-291 | a completed discard is dated the day it is written, so the weekly discard report run that day lists it, with the discarded amount, on its item's category sheet |
| `StoreMachine.CountReportIsEmpty` | src/pages/Reports.tsx:158 | no step writes an 'adjusted' record, so the stock-count report of any reachable store has no line |

## Left out

- The database, its network calls and their timing. Each call is a reply
  parameter: an error flag or a generated key.
- Concurrency. Two screens acting on the same row at once are not modelled;
  each handler runs to completion alone.
- `parseInt` on form text. Amounts and counts are taken as parsed integers,
  an empty field is None, and NaN reaching the database is not modelled.
- The `update_date` column default. The discard and receipt inserts leave
  `update_date` out; the column is taken to default to the insertion time,
  as `order_placed_date` does (`Model.ColumnDate`).
- `StockCount.FormPatch`: an empty expiry date is sent as the empty string.
  A date column is taken to refuse that value, so the update fails and the
  dialog stays open; the database's own message is not modelled.
- JavaScript dates. `toISOString`, `toLocaleDateString`, the week and month
  arithmetic, and the day difference behind the expiry colour are left out.
  Days and timestamps are integers, and the week-ago and month-ago instants
  are parameters.
- Case mapping is ASCII only. `toLowerCase` and `toUpperCase` map all of
  Unicode.
- `Orders.RunIncrementStock`: the `increment_stock` procedure runs on the
  server and is not part of this model. It is taken to add the amount to the
  row with that id.
- `Orders.MarkReceived`: the order list is refetched (`Orders.FetchOrders`)
  only after all three steps succeed. After a step throws, the list keeps the
  row as it was fetched, which `OrderDetails.StaleDialogReceivesTwice` follows
  through; the model does not carry the order list as screen state otherwise.
  The click in the dialog evaluates `onClose()` as an argument, so the dialog
  is closed before the hook runs; the dialog lemmas speak of a dialog
  reopened from the list row.
- `InventoryQuery.Fetch`: states that the page is drawn from the filtered
  rows, sorted, and at most one page long, but not which window.
  `InventoryQuery.PagesTile` states that the windows tile the ordered list.
- `InventoryQuery.BreaksOrFilter`: a search term holding ',' or ')' is taken
  to make the `.or()` filter unparsable, so the fetch fails. Other characters
  the filter syntax treats specially, such as '(' or a double quote, are not
  modelled.
- `InventoryQuery.ColumnOrder` knows three columns: `name`, `ref_num` and
  `qty_in_stock`, the ones the table has headers for. Other real columns are
  treated like unknown ones.
- Search patterns. The `ilike` pattern's `%` and `_` wildcards inside a search
  term are not modelled; the term is matched as a literal substring.
- Sort order details. The order of rows with equal sort keys is left to the
  insertion sort. Names compare code point by code point, not by the
  database's collation.
- `StockMovement.Refresh`: the refetched list keeps the membership and order
  of the list it replaces. The screens' query has no filters and orders by
  name. The refetching flows write quantities, and the stock count also
  category, location, expiry date, pack size, reorder level and remarks;
  none of them changes a name or adds or removes a row.
- `Grouping.GroupBy`: sheets come in first-appearance order of their
  category. `Object.entries` puts integer-like keys first; that order is not
  stated.
- `RecentActivity.Activities`: the rendering of the date as text is not
  modelled; the activity keeps the record's date.
- `Reports.Fileable`: the inherited keys are those of `Object.prototype` in
  current engines; properties other code may add to it are not modelled.
- Workbook and file output of the reports (XLSX). The sheet columns that only
  copy a field are kept out of `Reports.Line`.
- Stock-count report. No modelled operation writes an 'adjusted' record, so
  in the model that report is always empty (`StoreMachine.CountReportIsEmpty`).
  A database trigger could write such records; none is part of this model,
  so this is not listed as a finding.
- The low-stock list, the expiring-items query and the lookup-table hooks for
  categories, brands and locations are not modelled; they only fetch.
- The add-item page and the edit-item dialog are not modelled. The dialog's
  form has no submit button, so its handler cannot run.
- Theming, routing, authentication, the layout, and loading flags.
- `InventoryStats.FetchStats`: the total value counter is never set by the
  hook, and the model keeps it at 0.

## Findings

| source | as written | input that shows it | evidently intended | confidence | as-written member | corrected member |
|---|---|---|---|---|---|---|
| src/pages/StockUsage.tsx:56-57 | after a usage the list is not refetched, so the next usage's guard and write use the old quantity | 10 in stock; use 5, then pick the same row and use 8: the guard checks 8 against the 10 still shown, the write sets 2, and the audit trail records -13 | refetch the list, as the discard screen does, so the guard sees 5 and refuses 8 | not executed; high | `StockUsage.StaleListOverwritesUsage` | `StockUsage.HandleUsageRefetching` |
| src/hooks/useInventory.ts:18-21 | the discard, usage and stock-count screens use the hook's first page of ten rows and have no page controls; the order form's existing-item select (src/components/orders/CreateOrderForm.tsx:16 and :191) is built from the same ten rows, so only the first ten items by name can be ordered | eleven distinct items: the last by name never appears on those screens, whatever is typed in the search box | list every item, filtered by the search term | not executed; high | `InventoryQuery.ScreensMissRows` | `InventoryQuery.ScreenListAllRows` |
| src/components/inventory/InventoryTable.tsx:54 | the sort column is the header text lower-cased | a click on "Ref Num" orders by "ref num", which is not a column: the query fails and the table keeps its rows while the icon says it is sorted | map each header to its column (`ref_num`, `name`, `qty_in_stock`) and leave 'View' unsortable | not executed; high | `InventoryTable.OnlyNameHeaderSorts` | `InventoryTable.ClickHeaderIntended` |
