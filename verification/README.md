# Warehouse manager — a Dafny model of its core

The warehouse manager is a small stock-keeping application. It has three parts:

- a browser front end (`js/*.js`). It keeps items, categories and stock movements in local storage, or calls the server;
- an Express server (`server/src/routes/*.js`). Its routes read and write the same tables in SQL;
- users with roles and permissions, who decide which pages and actions are open to whom.

This project models the decisions those files take. It does not model the jQuery or Express plumbing around them.

- **Stock ledger**: items, operations and categories, plus the offline store's transitions. These are the id generators, incoming and outgoing movements, deletes, per-category counts, search, the movement report, statistics and export (`Ledger`). The server routes for operations, items, categories and the dashboard are each modelled as one atomic step over tables held as sequences (`OperationsRoute`, `ItemsRoute`, `CategoriesRoute`, `StatsRoute`, with rows in `ServerDb`).
- **SQL filter builders**: the WHERE/ORDER builder of `/api/operations` and `buildFilters` of `/api/reports`. A SQL condition is the list of text pieces between its `?` placeholders plus its parameters, so "placeholders = parameters" is a property of the structure (`SqlWhere`, `ReportsRoute`).
- **Access control and user administration**: the server's login decision (`AuthRoute`) and its user create/update/delete/toggle routes (`UsersRoute`). On the client: the session, role checks and page gating (`ClientAuth`), and the user form validator, email check and role→permission defaults (`ClientUsers`).
- **List views**: the filters, sorting, pages, counters and form checks of the catalog, history, search, categories, profile, reports and dashboard pages (`ClientCatalog`, `ClientHistory`, `ClientSearch`, `ClientCategories`, `ClientProfile`, `ClientReports`, `ClientMain`). These views share some pieces, each kept in its own module:
  - the paging arithmetic (`Paging`);
  - the status badge maps (`StatusBadge`);
  - the item form validator (`ItemForm`);
  - a functional sort (`Sorting`).
- **Text codecs**:
  - CSV quoting as section 2 of RFC 4180 describes it, with a reader that proves the round trip (`Csv`);
  - `escapeHtml` of the reports page (`ClientReports`);
  - `escapeRegex` of the search page (`ClientSearch`).

Representation choices:

- Dates are integer timestamps in seconds. A day is `date / 86400`.
- Prices are integers.
- The host's character functions are the abstract parameter `Common.Env`:
  - lower- and upper-casing;
  - the whitespace test;
  - `parseInt`, and `parseFloat` with `None` for NaN.
- "Now" and "today" are parameters.
- A form is a map from input id to its text.

## Model

| member | source | states |
|---|---|---|
| Ledger.NextItemId | js/warehouse.js:765-768 | the new item id is at least 1, exceeds every existing id (so it is fresh), is 1 on an empty store, and otherwise is one more than an existing id |
| Ledger.NextOperationId | js/warehouse.js:771-774 | the same for operation ids: fresh, 1 on an empty list, else one more than an existing id |
| Ledger.UpdateCategoryItemCounts | js/warehouse.js:132-139 | every category keeps its id and name; its item count is the number of items in it and its total quantity is the sum of their quantities |
| Ledger.RecountedCounters | js/warehouse.js:132-139 | categories recounted one by one carry the filter-based item count and quantity sum |
| Ledger.TallyCategory | js/warehouse.js:132-139 | the loop that counts one category returns the size and quantity sum of exactly that category's items |
| Ledger.WithItems | js/warehouse.js:132-139 | replacing the item list keeps the same categories (ids and names, in order), recounts every one of them against the new items and leaves the operations alone |
| Ledger.CreateOperation | js/warehouse.js:416-442 | without a current user nothing changes and an error is raised; otherwise exactly one operation with the given kind, item, quantity and user is appended |
| Ledger.ProcessIncoming | js/warehouse.js:337-371 | an unknown item id raises 'item not found' and changes nothing; a known item with a signed-in user always succeeds; only the first item with that id has its quantity grow by the requested amount, and on success one incoming operation is recorded; the categories stay the same ones, and with the item found their counters are up to date |
| Ledger.ProcessOutgoing | js/warehouse.js:374-413 | an unknown item raises 'item not found' and insufficient stock raises the insufficient-stock error with the stock on hand, both leaving the store unchanged; enough stock and a signed-in user always succeed, and then only that item's quantity falls by exactly the requested amount and one outgoing operation is recorded; the categories stay the same ones, with up-to-date counters after a change |
| Ledger.ItemIndex | js/warehouse.js:282 | none iff no item has the id; otherwise the position of the first item that has it |
| Ledger.MoveStock | js/warehouse.js:346-371 | only the item at the found position gets its new quantity; the categories stay the same ones and their counters are refreshed; with a user one operation of the given kind is logged, without one nothing is logged |
| Ledger.QuantitySetKeepsStockNonNegative | js/warehouse.js:346-352 | setting one item to a non-negative quantity keeps every quantity non-negative |
| Ledger.OutgoingKeepsStockNonNegative | js/warehouse.js:384-391 | an outgoing movement never makes any stock negative |
| Ledger.IncomingKeepsStockNonNegative | js/warehouse.js:341-348 | an incoming movement of a non-negative quantity keeps every stock non-negative |
| Ledger.DeleteItem | js/warehouse.js:319-334 | an unknown id is an error; otherwise exactly the first item with that id is removed, the others keep their order, the operations are untouched and the same categories carry refreshed counters |
| Ledger.DeleteCategory | js/warehouse.js:742-762 | an unknown id is an error; otherwise the category and exactly the items in it are removed, the rest kept in order |
| Ledger.DropCategory | js/warehouse.js:748-759 | the category at the position goes, the other categories keep their ids, names and order, and exactly the items outside the category remain |
| Ledger.DeleteCategoryLeavesNoOrphans | js/warehouse.js:742-762 | after a category delete no item is in that category and every other category holds exactly the items it held before |
| Ledger.FilterOfFilter | js/warehouse.js:542-579 | filtering by a stronger predicate after a weaker one is the same as filtering by the stronger one, which is how successive search filters compose |
| Ledger.SearchItems | js/warehouse.js:542-579 | the result is a subsequence of the items holding exactly those that match the query and every active filter; a min or max price of 0 is no filter; no query and no filter return all items |
| Ledger.FilterIf | js/warehouse.js:556-577 | an inactive filter keeps the list; an active one keeps exactly the matching elements, in order |
| Ledger.SubseqTrans | js/warehouse.js:542-579 | a subsequence of a subsequence is a subsequence, so chained filters still yield a subsequence of the items |
| Ledger.LowStockItems | js/warehouse.js:582-584 | the low-stock list is the subsequence of items whose quantity is at most their minimum |
| Ledger.SelectForReport | js/warehouse.js:853-860 | the report keeps exactly the operations dated within [start, end], further restricted to the given item id when one is given |
| Ledger.MovementReportFor | js/warehouse.js:852-876 | the report holds a subsequence of operations all inside the period; its incoming and outgoing totals are the quantity sums of the respective kinds and their counts never exceed the operation count |
| Ledger.TallySplit | js/warehouse.js:852-876 | incoming plus outgoing operation counts never exceed the total |
| Ledger.MovementReportAdditive | js/warehouse.js:852-876 | the report over two concatenated operation lists is the concatenation of the two reports, with totals that add up |
| Ledger.GetStatistics | js/warehouse.js:156-174 | total items is the sum of quantities, total value the sum of price × quantity, low stock the size of the low-stock list, today's operations exactly the number of operations dated today, and the category count the table size |
| Ledger.CategoryName | js/warehouse.js:846-849 | the name of the first category with that id, or the 'unknown' caption when there is none |
| Ledger.ExportItems | js/warehouse.js:796-810 | one header row and one row per item in store order, each row the item's id, name, category name, price, quantity, description, barcode and location |
| Ledger.ExportOperations | js/warehouse.js:813-827 | one row per operation in order: its id, formatted date, the kind as its Russian caption, item name, quantity, employee name, the status as its Russian caption and notes |
| Ledger.ExportStatistics | js/warehouse.js:830-843 | the 'Показатель'/'Значение' header and six two-column rows, each led by its label ('Всего товаров', 'Общая стоимость', 'Товары с низким запасом', 'Операций сегодня', 'Всего категорий', 'Всего операций') and carrying the total quantity, the total value with the rouble sign, the low-stock count, the number of operations dated today, the category count and the operation count of the store |
| Ledger.ExportData | js/warehouse.js:782-793 | exactly the three known export kinds succeed, each yielding its own table; any other kind is an error |
| OperationsRoute.OperationsWhere | server/src/routes/operations.js:11-15 | each given filter (type, start, end, item) adds one `?` clause and one parameter, in that order; no filter gives an empty WHERE; placeholders equal parameters |
| OperationsRoute.OrderSql | server/src/routes/operations.js:16 | the ORDER BY is one of four whitelisted clauses: by quantity iff sortBy is 'quantity', ascending iff the upper-cased order is 'ASC' |
| OperationsRoute.AddToStock | server/src/routes/operations.js:35-41 | every row with the id gets the delta added to its quantity and every other row is unchanged |
| OperationsRoute.InsertOperation | server/src/routes/operations.js:35-41 | the new operation takes the next id and is appended with the given fields; items and categories are untouched |
| OperationsRoute.PostIncoming | server/src/routes/operations.js:32-51 | answers 201, adds the quantity to the item and appends an incoming, completed operation with employee 1 and empty notes and supplier by default |
| OperationsRoute.PostOutgoing | server/src/routes/operations.js:53-77 | the route answers with JSON exactly when the item exists and holds at least the quantity; a missing item answers 500 'Item not found' and changes nothing; stock below the quantity answers 400 'Insufficient quantity' and changes nothing; otherwise stock falls by the quantity and one outgoing operation is appended |
| OperationsRoute.OutgoingNeverNegative | server/src/routes/operations.js:60-67 | with unique item ids, the outgoing route never drives stock negative |
| SqlWhere.Where | server/src/routes/reports.js:38 | no condition gives an empty WHERE and no parameters; otherwise 'WHERE ' and the conditions joined by ' AND ', with as many placeholders as parameters |
| SqlWhere.TextPlaceholders | server/src/routes/reports.js:13-36 | a condition's text has exactly one `?` per parameter |
| SqlWhere.When | server/src/routes/reports.js:13-36 | a condition is added with its parameters only when its field is given |
| SqlWhere.Optional | server/src/routes/operations.js:11-14 | a compared column contributes one clause and one parameter exactly when the value is given |
| SqlWhere.Append | server/src/routes/reports.js:38 | placeholders and parameters of concatenated condition lists stay aligned |
| ReportsRoute.Like | server/src/routes/reports.js:29-36 | the LIKE parameter is the query wrapped in '%' on both sides |
| ReportsRoute.LikeEither | server/src/routes/reports.js:29-36 | a two-column search is one parenthesised OR clause with two placeholders and two identical '%query%' parameters |
| ReportsRoute.EndOfDayParam | server/src/routes/reports.js:17-20 | the dateTo parameter is the given date with ' 23:59:59' appended |
| ReportsRoute.BuildFilters | server/src/routes/reports.js:9-40 | clauses in the fixed order dateFrom, dateTo, opType, categoryId, itemQuery, employeeQuery; the parameter list is the concatenation of theirs; no field gives an empty WHERE and no parameters; placeholders equal parameters |
| ReportsRoute.Operations | server/src/routes/reports.js:84-85 | exactly min(1000, matching) rows, newest first, drawn from the matching rows, and all of them when there are few enough |
| ReportsRoute.OperationsAreNewest | server/src/routes/reports.js:84-85 | a row left out of the 1000 is no newer than any row returned |
| ReportsRoute.DistinctItems | server/src/routes/reports.js:46-58 | the distinct item ids of the rows, each once |
| ReportsRoute.SumOfKind | server/src/routes/reports.js:46-58 | the SQL SUM of one kind's quantities, NULL when there are no rows |
| ReportsRoute.Aggregate | server/src/routes/reports.js:46-58 | counts every row, counts each item once, and sums incoming and outgoing quantities separately |
| ReportsRoute.Summary | server/src/routes/reports.js:58 | the first result row, or the all-zero record when none came back |
| ReportsRoute.SummaryOfNoRows | server/src/routes/reports.js:46-58 | an aggregate without GROUP BY always yields a row, so with no operations the answer carries NULL sums rather than the zero record |
| ReportsRoute.Group | server/src/routes/reports.js:120-128 | one item's row: its incoming and outgoing quantity sums |
| ReportsRoute.Groups | server/src/routes/reports.js:120-128 | one group per distinct item id |
| ReportsRoute.TopItems | server/src/routes/reports.js:129-132 | exactly min(20, groups) groups, ordered by incoming + outgoing descending, all groups when there are few enough |
| ReportsRoute.TopItemsAreGroups | server/src/routes/reports.js:117-140 | each returned row is the true group of an item that occurs in the operations |
| ReportsRoute.TopItemsAreBusiest | server/src/routes/reports.js:129-132 | a group left out moved no more than any group returned |
| ItemsRoute.CategoryOrNull | server/src/routes/items.js:23-28 | a falsy category id is stored as NULL, any other value as given |
| ItemsRoute.Stored | server/src/routes/items.js:23-28 | the stored row: falsy price, quantity and minimum become 0, falsy text fields become '' |
| ItemsRoute.GetItem | server/src/routes/items.js:13-19 | 404 exactly when no row has the id; otherwise 200 with that row |
| ItemsRoute.PostItem | server/src/routes/items.js:21-32 | answers 201 with the stored row under the next id, appended to the table |
| ItemsRoute.PostItemKeepsKeysUnique | server/src/routes/items.js:21-32 | inserting keeps item ids unique while the id counter stays above every key |
| ItemsRoute.PutItem | server/src/routes/items.js:34-44 | every row with the id is overwritten with the defaulted body and no other row changes; there is no existence check |
| ItemsRoute.DeleteItem | server/src/routes/items.js:46-51 | answers success whether or not a row existed, removing exactly the rows with that id |
| ItemsRoute.DeleteThenGet | server/src/routes/items.js:13-51 | after a delete, reading that id answers 404 and reading any other id answers as before |
| CategoriesRoute.ListCategories | server/src/routes/categories.js:6-11 | every listed category carries the number of items with that category id |
| CategoriesRoute.Stored | server/src/routes/categories.js:15-19 | falsy description, icon and color become '', 'fas fa-tag' and '#2c5aa0' |
| CategoriesRoute.PostCategory | server/src/routes/categories.js:13-23 | answers 201 with the stored row under the next id, appended; items untouched |
| CategoriesRoute.PutCategory | server/src/routes/categories.js:25-35 | rows with the id are overwritten with the same defaulting and nothing else changes |
| CategoriesRoute.DeleteCategory | server/src/routes/categories.js:37-43 | removes exactly the items with that category id and then the category, keeping the rest in order |
| CategoriesRoute.DeleteCategoryKeepsOtherCounts | server/src/routes/categories.js:39-41 | every other category keeps its item count |
| StatsRoute.GetStats | server/src/routes/stats.js:6-17 | total items is the sum of quantities and total value the sum of price × quantity (both 0 on an empty table); low stock counts quantity ≤ minimum; today's operations are those dated today; the other counts are table sizes |
| StatsRoute.AddToStockSum | server/src/routes/stats.js:8 | adding a delta to the rows with one id moves total items by delta times the number of those rows |
| StatsRoute.UniqueKeyOnce | server/src/routes/stats.js:8 | with unique ids, an id occurs once when present and never otherwise |
| StatsRoute.IncomingMovesDashboard | server/src/routes/operations.js:32-51 | an incoming movement raises the dashboard's total items by exactly its quantity and its operation counts by one |
| UsersRoute.RoleIdOf | server/src/routes/users.js:156-168 | the id of the role with that name, or nothing when no role has it |
| UsersRoute.LinksFor | server/src/routes/users.js:156-168 | one link for every listed role that exists, for that user; unknown names are dropped |
| UsersRoute.CreateUser | server/src/routes/users.js:109-212 | missing fields or no roles answer 400; a password shorter than 6 answers 400; a taken username or email answers 400; each failure changes nothing; the user is created exactly when every check passes |
| UsersRoute.CreateKeepsLoginsDistinct | server/src/routes/users.js:123-140 | creating a user keeps usernames and emails distinct |
| UsersRoute.Updated | server/src/routes/users.js:252-269 | the updated row takes the body's fields, keeps the id and active flag, and keeps the old password when none is supplied |
| UsersRoute.UpdateUser | server/src/routes/users.js:227-360 | missing fields answer 400; a password is length-checked only when supplied; an unknown id answers 404; a username or email held by another id answers 400; failures change nothing; the update succeeds exactly when every check passes, and then answers 200 with that user's row as now stored: the same id with the supplied fields |
| UsersRoute.UpdateReplacesRoles | server/src/routes/users.js:294-312 | the user's roles become exactly the listed roles that exist, and other users' links are untouched |
| UsersRoute.DeleteUser | server/src/routes/users.js:371-410 | an unknown id answers 404 and changes nothing; an existing id always answers the deletion message, the user row and all its role links go and nothing else does, the id counter included |
| UsersRoute.ToggleStatus | server/src/routes/users.js:421-447 | an unknown id answers 404 and changes nothing; an existing id always succeeds, only that user's active flag flips, the role links and the id counter stay, and the new value is returned |
| UsersRoute.ToggleTwiceRestores | server/src/routes/users.js:435-447 | toggling twice restores the table |
| UsersRoute.RowIndex | server/src/routes/users.js:426-429 | none iff no row has the key; otherwise the first row with it |
| UsersRoute.ToggleAt | server/src/routes/users.js:435-447 | with unique keys a toggle flips exactly the row at the key's position and keeps keys unique |
| UsersRoute.SplitColumn | server/src/routes/users.js:44-45 | a NULL or empty column gives []; otherwise the parts join back to the column and none holds a comma |
| UsersRoute.GroupConcat | server/src/routes/users.js:22-23 | no names give NULL, otherwise the distinct names (`DISTINCT`) joined by commas |
| Common.Distinct | server/src/routes/users.js:22-23 | each element once, at its first occurrence: the same members, no repeats, and a list without repeats unchanged |
| UsersRoute.RepeatedNameListedOnce | server/src/routes/users.js:22-23 | a role linked twice (one link per permission) is listed once in the split column |
| UsersRoute.SplitColumnRoundTrip | server/src/routes/users.js:22-45 | splitting a concatenated list of comma-free names gives each name back once, in first-occurrence order: exactly the names given, with no repeats |
| AuthRoute.LinkedRoleIds | server/src/routes/auth.js:22-29 | exactly the ids of the roles linked to the user |
| AuthRoute.RoleNames | server/src/routes/auth.js:22-29 | exactly the names of the linked roles |
| AuthRoute.NamesWithId | server/src/routes/auth.js:22-25 | exactly the names of the roles with that key |
| AuthRoute.Login | server/src/routes/auth.js:7-44 | a missing username or password answers 400; with both given, the login succeeds exactly when the first user with that username accepts the password, and otherwise answers 401; the payload carries the user's fields, roles and permissions, never the password hash |
| AuthRoute.UserIndex | server/src/routes/auth.js:12-15 | none iff no account has the username; otherwise the first account with it |
| AuthRoute.DefaultPasswordOnly | server/src/routes/auth.js:19-20 | a user without a stored hash signs in with 'admin123' and with nothing else |
| AuthRoute.PermissionMultiplicity | server/src/routes/auth.js:22-29 | each permission occurs in the payload as often as it is granted through the user's roles, duplicates kept |
| ClientAuth.WithoutPassword | js/auth.js:69-79 | the stored session copies every field of the account except the password |
| ClientAuth.Login | js/auth.js:59-105 | a blank trimmed username or password is refused; sign-in succeeds iff some account matches both trimmed values exactly, and then the session is that account without its password |
| ClientAuth.SignedInRolesAreAccountRoles | js/auth.js:69-79 | after sign-in, `hasRole` and `hasPermission` hold exactly for the matched account's roles and permissions |
| ClientAuth.DemoAdminRole | js/auth.js:222-270 | among the demo accounts only 'admin' has the admin role |
| ClientAuth.OnlyAdminGetsAdminRole | js/auth.js:59-105 | signing in with the demo accounts grants the admin role iff the username is 'admin' |
| ClientAuth.Logout | js/auth.js:106-118 | after logout nobody is authenticated and no role or permission holds |
| ClientAuth.CheckPageAccess | js/auth.js:150-176 | a protected page without authentication goes to login; otherwise an '/admin/' path without the admin role goes to the index; anything else stays |
| ClientAuth.AdminPagesNeedAdmin | js/auth.js:150-176 | staying on an '/admin/' page implies an authenticated admin |
| ClientAuth.CreateUser | js/auth.js:272-288 | refused iff the session is not an admin; roles default to ['viewer'] and permissions to ['read'] |
| ClientAuth.UpdateUser | js/auth.js:291-299 | allowed iff the session is an admin |
| ClientAuth.DeleteUser | js/auth.js:302-310 | allowed iff the session is an admin |
| ClientAuth.GetAccessInfo | js/auth.js:344-360 | nothing without a user; otherwise each can/is flag equals the matching permission or role check |
| ClientUsers.IsValidEmail | js/users.js:673-676 | an accepted address has exactly one '@' and no whitespace |
| ClientUsers.IsValidEmailMatchesPattern | js/users.js:673-676 | accepted iff the address is a non-empty local part, '@', and a domain with a '.' that is neither first nor last, all without whitespace or a second '@' |
| ClientUsers.ValidateUserData | js/users.js:636-670 | checks in order (username ≥ 3, full name ≥ 2, valid email, a role, a permission, username not held by another user) and stops at the first failure |
| ClientUsers.UsernameCheckSpotsOthers | js/users.js:663-667 | the username clash holds iff another user than the edited one has that username |
| ClientUsers.PermissionsFromRoles | js/users.js:679-700 | admin gives read, write, delete and admin; else manager gives read and write; else operator or viewer gives read alone; no known role gives none |
| ClientUsers.PermissionsGrowWithRoles | js/users.js:679-700 | adding a role never takes a permission away |
| ClientUsers.HandleSearch | js/users.js:284-301 | a subsequence holding exactly the users that match the term and the role filter; an empty term and filter keep everyone |
| ClientUsers.Statistics | js/users.js:309-319 | the active, admin and manager counts are the counts of their predicates, each at most the total |
| ClientUsers.DemoCreate | js/users.js:366-375 | the new user is appended with id length + 1, active and never logged in |
| ClientUsers.DemoCreateRepeatsKey | js/users.js:366-372 | after a delete, the length + 1 id can repeat an existing id |
| ClientUsers.NextUserId | js/users.js:366-372 | an id above every existing id |
| ClientUsers.DemoCreateFresh | js/users.js:366-372 | the corrected create appends a user whose id differs from every existing one |
| ClientUsers.DemoCreateFreshKeepsKeysUnique | js/users.js:366-372 | the corrected create keeps ids unique and adds one to the total |
| ClientUsers.DeleteFromLists | js/users.js:491-492 | the id is removed from both the full and the filtered list and nothing else is |
| ClientCatalog.ApplyFilters | js/catalog.js:181-226 | a subsequence holding exactly the items that pass every active filter (search, category, price bounds, in stock, low stock); the page resets to 1 |
| ClientCatalog.CatalogAgreesWithStoreSearch | js/catalog.js:186-221 | with equal filters the catalog keeps exactly the items the store search keeps |
| ClientCatalog.BarcodeMatchIsCaseSensitive | js/catalog.js:188-195 | when name and description miss, an item matches iff its barcode contains the lower-cased query verbatim |
| ClientCatalog.PageItems | js/catalog.js:260-263 | at most 12 items, the page's slice of the filtered list |
| ClientCatalog.GetStockStatus | js/catalog.js:465-473 | quantity 0 is out of stock; else at most the minimum is running low; else in stock; the three cases are exclusive |
| ClientCatalog.BadgeAgreesWithLowStock | js/catalog.js:465-473 | the in-stock badge shows iff the store does not count the item as low stock |
| ClientCatalog.DistinctCategories | js/catalog.js:429-443 | each non-empty category of the items once |
| ClientCatalog.Statistics | js/catalog.js:429-443 | total, in-stock, low-stock and category counters, each bounded by the total |
| ClientCatalog.CheckedBoxesFillTheirCounters | js/catalog.js:198-218 | with the in-stock or low-stock box checked, that counter equals the number of items shown |
| ClientCatalog.EditFormAlwaysRejected | js/catalog.js:507-511 | an edit form, whose inputs are all `editItem*`, is always refused for a missing item name |
| ClientCatalog.ValidateEditForm | js/catalog.js:616-638 | the edit form accepted iff its own required fields are filled and price and quantity are not negative |
| ClientCatalog.EditFormAcceptedWhenFilled | js/catalog.js:616-638 | a filled edit form with sound numbers passes; one without a name is refused with the name's label |
| ClientCatalog.CatalogLineCollides | js/catalog.js:662-665 | the cell `a","b` and the two cells `a`, `b` give the same CSV line |
| ClientCatalog.CatalogCsvQuoted | js/catalog.js:657-686 | the corrected export quotes each cell and doubles embedded quotes |
| ClientCatalog.CatalogCsvQuotedReadsBack | js/catalog.js:657-686 | reading the corrected export gives back the header and every cell's text |
| ClientHistory.ApplyFilters | js/history.js:116-174 | a subsequence holding exactly the operations that meet every non-empty filter, with item and employee ids compared after `parseInt`; the page resets to 1 |
| ClientHistory.DateFiltersAreWholeDays | js/history.js:141-147 | the start bound admits the operations on or after its day and the end bound, extended to 23:59:59, those on or before its day |
| ClientHistory.ApplySorting | js/history.js:175-205 | a permutation sorted by the chosen field, ascending iff the order is 'asc' |
| ClientHistory.SortingIsDeterminedByKeys | js/history.js:179-200 | with distinct keys, any sorted permutation is the sorted result |
| ClientHistory.PageOperations | js/history.js:236-239 | at most 20 operations, the page's slice |
| ClientHistory.UpdateStatistics | js/history.js:328-340 | the total is the list length; incoming and outgoing are the counts of their kinds and sum to at most the total; the total quantity is non-negative when every quantity is |
| ClientHistory.CountersSplitTheTotal | js/history.js:329-332 | when every operation is incoming or outgoing the two counters add up to the total and the quantities to the two sums |
| ClientHistory.GenerateReport | js/history.js:474-517 | no report without both dates; a movement report asks the store for the start of the first day through the start of the last day |
| ClientHistory.MovementReportDropsLastDay | js/history.js:491 | an operation at midday of a one-day period is missing from the movement report though the history filter keeps it |
| ClientHistory.GenerateReportWholeDays | js/history.js:474-517 | the corrected report asks through the end of the last day |
| ClientHistory.WholeDaysAgreeWithHistoryFilter | js/history.js:489-502 | the corrected movement report keeps exactly the operations the history date filter keeps |
| ClientHistory.HeaderBlock | js/history.js:556-573 | the fixed header block of known length with the column header at its end, each entry a single line when the shown dates are |
| ClientHistory.MovementLines | js/history.js:556-573 | the header block followed by exactly one line per operation, in order |
| ClientHistory.MovementCsvLines | js/history.js:556-573 | splitting the CSV on newlines gives back exactly those lines |
| ClientSearch.SearchItems | js/search.js:117-132 | no items for an operations-only search; otherwise the store search with the page's filters |
| ClientSearch.SearchOperations | js/search.js:133-167 | no operations for an items-only search; otherwise a subsequence holding exactly those that match the query in one of five fields, case-insensitively, within inclusive date bounds |
| ClientSearch.OperationSearchIgnoresCase | js/search.js:142-151 | two queries equal after lower-casing find the same operations |
| ClientSearch.PerformSearch | js/search.js:78-107 | an empty or all-whitespace query is refused without searching; otherwise both searches run on the trimmed query |
| ClientSearch.SearchTypeSelectsTabs | js/search.js:118-137 | 'operations' empties the items and 'items' empties the operations, each leaving the other tab as an 'all' search |
| ClientSearch.EscapeRegex | js/search.js:342-345 | a text without special characters is unchanged, and escaping never shortens |
| ClientSearch.EscapeRegexIsLiteral | js/search.js:342-344 | reading the escaped pattern as a regular expression matches exactly the original text |
| ClientSearch.EscapeRegexInjective | js/search.js:342-344 | different texts escape to different patterns |
| ClientSearch.HighlightQuery | js/search.js:334-341 | an empty query leaves the text unchanged |
| ClientSearch.ApplySorting | js/search.js:399-439 | relevance keeps the results and page; any other key sorts items and operations by it as permutations and resets the page to 1 |
| ClientSearch.SortingTwiceIsSortingOnce | js/search.js:399-439 | sorting by price twice is sorting once, when prices are distinct |
| ClientSearch.GetCategoryInfo | js/search.js:596-610 | the table's record for a known id, the 'unknown' record for any other |
| ClientSearch.Lookup | js/search.js:606-607 | the fallback when no entry has the id; otherwise an entry with that id |
| ClientSearch.LookupDistinct | js/search.js:606-607 | in a table with distinct ids that does not hold the fallback, every entry is found by its id and the fallback comes back iff the id is outside the table |
| ClientSearch.LookupFindsEntry | js/search.js:606-607 | every table entry is found by its id, and the 'unknown' record comes back iff the id is not in the table |
| ClientCategories.ReadForm | js/categories.js:301-322 | name and description trimmed; a blank icon becomes 'fas fa-tag' |
| ClientCategories.EditFormRoundTrip | js/categories.js:301-332 | filling the edit form from a category and reading it back gives the category's fields |
| ClientCategories.FindHolder | js/categories.js:169-176 | finds a holder iff another category has the name, compared case-insensitively after trimming |
| ClientCategories.IndexOfId | js/categories.js:241 | none iff no entry has the id; otherwise the first entry with it |
| ClientCategories.AddCategory | js/categories.js:159-193 | a blank name or a taken name is refused; otherwise exactly one category is appended |
| ClientCategories.AddKeepsNamesUnique | js/categories.js:169-179 | adding to the page's own list keeps category names distinct up to case |
| ClientCategories.UpdateCategory | js/categories.js:213-258 | nothing selected, a blank name or a name held by another category is refused; otherwise only the matching entry changes |
| ClientCategories.StoreUpdate | js/warehouse.js:723-740 | fails iff no entry has the id; otherwise keeps the length and replaces exactly the first entry with that id by the merged one |
| ClientCategories.Merge | js/categories.js:241-244 | the updated entry keeps its id and item count |
| ClientCategories.UpdateKeepsNamesUnique | js/categories.js:215-244 | updating keeps ids and names distinct and the entry carries the new name |
| ClientCategories.ReplaceKeepsUnique | js/categories.js:241-244 | replacing one entry by one with the same id and a name no other entry holds keeps ids and names unique |
| ClientCategories.DeleteCategory | js/categories.js:259-300 | an unknown id is refused; without confirmation nothing changes; a confirmed delete removes exactly that id |
| ClientCategories.DeleteRemovesOne | js/categories.js:287 | with unique ids, a confirmed delete removes exactly one entry |
| ClientCategories.UpdateStatistics | js/categories.js:52-67 | active and empty counts are at most the total and zero iff no category is active or empty |
| ClientCategories.AddCountsNewCategory | js/categories.js:159-193 | adding to the page's own list raises the total and the empty count by one and the active count by one iff the new category is active |
| ClientCategories.AddCategoryShared | js/categories.js:178-179 | while the page's list is the store's own array, the refusals are those of the separate list, and an accepted addition gives the separate list's result followed by a second copy of the new entry |
| ClientCategories.SharedAddRepeatsEntry | js/categories.js:178-179 | on the shared array an accepted name appears twice, so names are no longer unique |
| ClientCategories.SharedAddCountsTwice | js/categories.js:178-183 | on the shared array an accepted addition raises the page's total and empty counts by two |
| ClientProfile.SavePassword | js/profile.js:289-315 | in order: an empty field, then differing new passwords, then a new password shorter than 6; otherwise accepted; each outcome stated both ways |
| ClientProfile.EditForm | js/profile.js:318-327 | the edit form is filled from the user's fields |
| ClientProfile.SaveProfile | js/profile.js:330-360 | a missing name or email, then an invalid email, is refused; otherwise the form's fields are stored and id, login, roles and permissions are kept |
| ClientProfile.SaveUnchangedForm | js/profile.js:318-360 | saving the unchanged edit form of a valid profile leaves the profile as it was |
| ClientProfile.Mine | js/profile.js:170-171 | exactly the operations of the given user |
| ClientProfile.UserOperations | js/profile.js:167-180 | exactly min(10, the user's count) of the user's operations, newest first, each taken at most as often as it occurs (a sub-multiset), and all of them when there are few enough |
| ClientProfile.UserOperationsAreLatest | js/profile.js:170-173 | any operation of the user that is left out is no newer than every operation shown |
| ClientProfile.RoleDisplayName | js/profile.js:117-125 | a known role shows its Russian name, any other the raw key |
| ClientProfile.PermissionDisplayName | js/profile.js:128-136 | a known permission shows its Russian name, any other the raw key |
| ClientProfile.RoleNamesTellRolesApart | js/profile.js:117-125 | two roles with the same caption are the same role, unless a raw key spells a caption |
| ClientProfile.PermissionNamesTellPermissionsApart | js/profile.js:128-136 | the same for permissions |
| ClientProfile.Recommendations | js/profile.js:432-463 | at most three tips in order admin, manager, welcome, each present iff the user is an admin, a manager, or has no operation today |
| ClientProfile.MoreRolesMoreTips | js/profile.js:432-463 | more roles never remove a tip |
| ClientProfile.LoadSettings | js/profile.js:261-268 | email and low-stock alerts are on unless stored as false; operation reports are on only when stored truthy |
| ClientProfile.SaveSettings | js/profile.js:271-280 | the three settings are stored as flags |
| ClientProfile.SettingsRoundTrip | js/profile.js:261-280 | loading saved settings gives them back; nothing stored gives on, on, off |
| ClientMain.GetFieldLabel | js/main.js:288-301 | a mapped field shows its label, an unmapped one its own name |
| ClientMain.AddNewItem | js/main.js:164-188 | the form reaches the store iff the four item fields are filled and price and quantity are not negative |
| ClientMain.SubmitMovement | js/main.js:191-242 | a movement reaches the store exactly when the `item*` inputs pass the item form check (all filled, price and quantity not negative); a missing item name is refused with its message; a sent movement carries the parsed item and quantity, the supplier (incoming) or recipient (outgoing) and the notes, empty when the input is absent |
| ClientMain.MovementNeverSent | js/main.js:191-199 | a dialog whose inputs all start with 'incoming' or 'outgoing' is always refused for a missing item name, so the store is never called |
| ClientMain.ValidateMovement | js/main.js:288-301 | the corrected check: accepted iff the dialog's item and quantity are filled and the quantity is not negative |
| ClientMain.MovementOf | js/warehouse.js:358-367 | the supplier (incoming) or recipient (outgoing) and the notes are the dialog's inputs, or empty when absent; an absent item input is parsed as the empty text |
| ClientMain.SubmitMovementChecked | js/main.js:191-242 | the corrected handler sends exactly when the dialog's own item and quantity are filled and the quantity is not negative, with the parsed item and quantity, the supplier or recipient and the notes |
| ClientMain.CheckedMovementSent | js/main.js:191-226 | a filled dialog now reaches the store with its parsed values, counterparty and notes, and one without an item is refused with the item's label |
| Common.LabelOf | js/catalog.js:641-654 | a key with a non-empty entry shows that entry; a missing or empty entry shows the key itself |
| ItemForm.FirstBlank | js/main.js:264-271 | the first required field that is missing or blank, or none iff all are filled |
| ItemForm.FieldsValidator | js/main.js:263-285 | accepted iff every required field is filled and the price and quantity, when given, are not negative; the first blank field names the message |
| ItemForm.ValidateForm | js/catalog.js:616-638 | accepted iff the four item fields are filled and price and quantity are not negative; a missing name is refused with the name's label |
| ItemForm.MissingItemFieldRejected | js/main.js:264-271 | a form lacking any required item field is refused |
| ItemForm.RequiredFieldsFilled | js/main.js:264-271 | the required-field list and the item-field predicate agree |
| StatusBadge.StatusClass | js/history.js:341-349 | known statuses get their own class; unknown ones 'status-pending' |
| StatusBadge.StatusText | js/history.js:350-358 | known statuses get their caption; unknown ones 'Неизвестно' |
| StatusBadge.CaptionDeterminesClass | js/main.js:118-135 | the caption 'Неизвестно' marks exactly the unknown statuses; equal captions give equal classes; an unknown status looks pending but is captioned differently |
| Paging.TotalPages | js/catalog.js:260-263 | the ceiling of items over page size: enough pages for every item, no empty last page, zero iff no items |
| Paging.Page | js/history.js:236-239 | at most a page of elements, the page's slice of the list |
| Paging.OnItsPage | js/catalog.js:260-263 | every element appears on page `k / size + 1` at position `k % size`, and that page exists |
| Paging.PageWindow | js/catalog.js:386-409 | no links for one page; otherwise exactly the pages from 1 to the total that lie within two of the current page, consecutive and ascending, from max(1, current - 2) to min(total, current + 2), never empty when the current page is in range |
| Sorting.SortedPermutationUnique | js/history.js:179-200 | with distinct keys there is only one sorted permutation |
| Sorting.TopBy | js/profile.js:170-173 | the first n by key descending: sorted, drawn from the input, the whole input when it is short enough |
| Sorting.TopByKeepsLargest | server/src/routes/reports.js:84-85 | an element left out has a key no larger than any element kept |
| Sorting.JsSlice | js/catalog.js:260-263 | `slice` with JavaScript's index clamping yields a contiguous piece no longer than asked |
| Csv.QuoteField | js/reports.js:153 | each field is wrapped in double quotes |
| Csv.Escape | js/reports.js:153 | embedded quotes are doubled; a field without quotes is unchanged |
| Csv.ReadEscaped | js/reports.js:153 | reading a quoted field back gives the original text and the rest of the input |
| Csv.ReadRecordBack | js/reports.js:153 | reading a record back gives the original fields |
| Csv.ParseDocument | js/reports.js:149-153 | parsing a document gives back every record |
| Csv.DocumentInjective | js/reports.js:149-153 | different tables give different documents |
| ClientReports.ResetFilters | js/reports.js:91-102 | all six filter fields become empty |
| ClientReports.AsQuery | js/reports.js:54-75 | each form field goes into the query string as given |
| ClientReports.ResetQueriesEverything | js/reports.js:91-102 | after a reset, the server builds an empty WHERE with no parameters |
| ClientReports.EmptyFieldsAddNothing | js/reports.js:54-75 | the server sees no filter iff all six form fields are empty |
| ClientReports.ShownSummary | js/reports.js:104-110 | a missing summary shows zeros, a loaded one as loaded |
| ClientReports.ShownSummaryCountsRows | js/reports.js:104-110 | the shown operation count and item count are those of the selected rows |
| ClientReports.NetColumnIsBalance | js/reports.js:143 | the net column of every top item is its incoming minus its outgoing quantity |
| ClientReports.CsvRow | js/reports.js:149-152 | one record per operation with kind, item, quantity, and '' for a missing employee or category |
| ClientReports.CsvRows | js/reports.js:149-152 | the header, then one record per operation in order, all of the header's width |
| ClientReports.ExportCsvReadsBack | js/reports.js:148-155 | parsing the exported text gives back the header and every record |
| ClientReports.RunLength | js/reports.js:192 | the length of the maximal run of special characters at the start |
| ClientReports.EscapeHtmlAsWritten | js/reports.js:191-193 | an empty or missing text gives '' |
| ClientReports.EscapeHtmlLosesRuns | js/reports.js:192 | the run '<<' becomes the text 'undefined' instead of '&lt;&lt;' |
| ClientReports.AsWrittenAgreesOnLoneSpecials | js/reports.js:192 | without two adjacent special characters, the code as written escapes each character on its own |
| ClientReports.EscapeHtml | js/reports.js:191-193 | the corrected escape: '' for empty or missing text, and no '<', '>' or '"' left |
| ClientReports.UnescapeEscapeHtml | js/reports.js:192 | decoding the corrected escape gives back the text |
| ClientReports.EscapeCharsRoundTrip | js/reports.js:192 | decoding the per-character escape gives back the text |

## Left out

- Browser and server plumbing: the DOM, jQuery rendering, Bootstrap modals, `localStorage`, `fetch`, the offline/online switch of the store, Express middleware, `server.js` and `migrate.js`. The model keeps the offline store and the routes' table changes. The category page's list is modelled as an array of its own, as it is once the second `getCategories` call on loading (js/categories.js:365) reached the server and replaced the store's array; otherwise the page and the store share one array (both branches of `getCategories` return it, js/warehouse.js:679-695), and that case is listed under Findings.
- The API branch of the warehouse store (`apiRequest`, `getAllItems`, `getItemById`, `addItem`, `updateItem`, `getRecentOperations`, `getOperations`, `syncOperationsFromApi`, `getCategories`, `getCategoryById`, `addCategory`, `updateCategory`): these forward to the server routes, which are modelled on their own.
- Email and notifications (`emailService.js`, `notifications.js`, `checkAndSendNotifications`, the weekly report): external I/O.
- JWT signing in the login route and `authenticateToken` / `requireRole`: cryptography and middleware. The model returns the payload the token carries.
- Password hashing: none happens in the source either. Hashes are compared verbatim.
- Floating point: prices are integers and `parseFloat` is abstract, so fractional prices and `toFixed` formatting are outside the model.
- Time zones and locale formatting: a day is the UTC day of a timestamp, and date strings come from an abstract formatter.
- `getActivityStats`: its day arithmetic with `Math.ceil` is not modelled. `Recommendations` takes today's operation count as a parameter.
- `generateCategoryId` (js/warehouse.js:777-779) uses the clock. The new id is a parameter.
- Stored settings that fail `JSON.parse`: the page falls back to defaults. Settings are a map of already parsed values.
- JavaScript property lookup on the display-name maps: keys such as 'constructor' would hit `Object.prototype`. Only own keys are modelled.
- Password length is counted in characters rather than UTF-16 code units.
- The SQL `GROUP_CONCAT(DISTINCT …)` order is unspecified; the model keeps each name at its first occurrence. The users routes answer the stored row rather than re-reading it through the view. Duplicate role names in a request give duplicate link rows, because the schema's unique keys are not part of this model.
- The order of equal keys after sorting: `Array.prototype.sort` is stable, but the model only claims a sorted permutation.
- Sorting by text fields (item or employee names, `localeCompare`): only integer keys are modelled.
- The detailed and summary report CSVs of the history page and its operations export: only the movement CSV is modelled.
- The `/api/reports/by-category` route (server/src/routes/reports.js:96-115).
- The users routes `GET /`, `GET /:id`, `/stats/overview`, `/roles/available` and `/permissions/available`, apart from the role and permission column split they share. They are plain reads.
- `GET /api/items` (server/src/routes/items.js:6-11): a plain read.
- `exportUserData`, `displayUserInfo`, the category navigation and dropdown loaders, and the confirm-dialog wording: presentation only.
- `highlightQuery` builds its highlight with a regular expression and HTML. `HighlightQuery` takes the highlighting as a parameter and states only the empty-query guard.
- ClientSearch.SearchItems: the price bounds are taken as whole numbers, because fractions of `parseFloat` are outside the model.
- Ledger.ProcessIncoming: a quantity `parseInt` could not read (NaN) is not modelled. The quantity is an integer.
- ClientMain.SubmitMovement: carries the parsed values as options and does not follow what the store would do with NaN.
- ClientUsers.DemoCreate: the source's demo user copies the form as it is, so it has a `fullName` and no `name` field, and the search at js/users.js:290 would then throw on `user.name`. The model stores `fullName` as the name and does not model that throw.
- SQL text comparison: the routes' `WHERE username = ?`, `email = ?` and role-name lookups are modelled as exact string equality. MySQL's usual collations ignore case and trailing spaces; the schema's collation is not part of this model.
- ReportsRoute.Summary: the zero fallback is modelled, but `SummaryOfNoRows` shows it is never reached.

## Findings

| source | as written | input that shows it | evidently intended | confidence | as-written member | corrected member |
|---|---|---|---|---|---|---|
| js/reports.js:192 | `escapeHtml` replaces each maximal run of `[&<>"]+` by a lookup of the whole run in a one-character map | the text `<<` becomes `undefined` | every special character replaced by its own entity, `&lt;&lt;` | high, not executed | ClientReports.EscapeHtmlLosesRuns | ClientReports.UnescapeEscapeHtml |
| js/catalog.js:507-511 | `updateItem` checks the edit form with `validateForm`, which reads the `itemName`/`itemCategory`/`itemPrice`/`itemQuantity` inputs | any edit form, whose inputs are `editItemName` and so on, is refused for a missing item name | the edit form is checked against its own inputs | high, not executed | ClientCatalog.EditFormAlwaysRejected | ClientCatalog.EditFormAcceptedWhenFilled |
| js/catalog.js:662-665 | catalog CSV cells are wrapped in quotes without doubling embedded quotes | the cell `a","b` and the two cells `a` and `b` give the same line | embedded quotes doubled, as in section 2 of RFC 4180 | high, not executed | ClientCatalog.CatalogLineCollides | ClientCatalog.CatalogCsvQuotedReadsBack |
| js/users.js:366-372 | a demo-mode user gets id `users.length + 1` | users with ids 1 and 3, after id 2 was deleted: the new user also gets id 3 | an id no existing user has | high, not executed | ClientUsers.DemoCreateRepeatsKey | ClientUsers.DemoCreateFreshKeepsKeysUnique |
| js/main.js:191-199 | the incoming and outgoing dialogs are checked with `validateForm`, which requires the `item*` inputs | any incoming dialog (`incomingItem`, `incomingQuantity`) is refused for a missing item name | the dialog's own item and quantity are required | high, not executed | ClientMain.MovementNeverSent | ClientMain.CheckedMovementSent |
| js/history.js:491 | the movement report asks for operations up to the start of the end date, and the store compares full timestamps (js/warehouse.js:855) | a one-day period and an operation at midday of that day | the whole end day included, as the history filter does | medium, not executed | ClientHistory.MovementReportDropsLastDay | ClientHistory.WholeDaysAgreeWithHistoryFilter |
| js/categories.js:178-179 | the page's list is the array `getCategories` returned on loading (js/categories.js:48), and both branches of `getCategories` return the store's own array (js/warehouse.js:679-695); unless the second call (js/categories.js:365) reached the server and replaced it, the two are one array, so `addCategory` pushes the new category into it (js/warehouse.js:717) and the page pushes it again | an empty list and the new category `Tools` with the server down: the page lists `Tools` twice and counts two categories | the new category listed once | high, not executed | ClientCategories.SharedAddRepeatsEntry | ClientCategories.AddKeepsNamesUnique |
