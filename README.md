# Car detailing manager — a verified model of its stores and page logic

This project models the core of a small car-detailing back office, written in TypeScript with MobX stores and React pages, and proves properties of that model.

- **In-memory stores.** `ClientsStore`, `ServicesStore` and `OrdersStore` are classes whose list fields are grown, patched in place and filtered. Ids are assigned as the largest id plus one.
- **`CarStore`.** This store mirrors a remote `cars` table. It has a loading flag, three filter fields, a debounce timer, and add, update and delete methods that call the fetch again when a filter is set. That call does nothing, because the method has already set `loading` (see "## Findings").
- **Date helpers.** These build local dates from `YYYY-MM-DD` text and format them back. The helpers depend on JavaScript's `Date` constructor, so `JsDate` models the parts they use:
  - the two-digit-year rule;
  - month and day overflow;
  - day numbers and weekdays.
- **The filter popover.** This covers the active-filter badge, the reset button, the quick ranges (today, this week, this month) and when a range counts as selected. It also covers the popover's local state: open or closed, sync from props, and confirm.
- **The orders page and order dialog.**
  - The page: sorting by id descending, per-order totals, the status list, expand/collapse and status changes.
  - The dialog: the form state, service toggling, and the save and delete handlers. They dispatch update, add and delete calls, which the model returns as data.
- **The dashboard aggregates.** These are the counts per status, the pie data, orders per day, revenue per day, today's revenue and the count of completed orders.

Modules:

- `Common`: `Option`, and a count of true flags.
- `Keyed`: generic helpers over lists keyed by an id — first index of an id, next id, removal by id, distinct ids.
- `Clients`, `Services`, `Orders`, `Cars`: the stores.
- `JsDate` and `DateUtils`: the date model and the date helpers.
- `FilterBar`: the filter popover.
- `OrderRecords`, `OrdersPage`, `OrderModal`: the order pages.
- `Grouping` and `Dashboard`: the dashboard. `Grouping` is a generic "group and sum into a dictionary" loop.

Each store method is specified by a function of the old state, and the lemmas prove what the store promises about that function. The remote database's replies are inputs to the methods. The current time is a parameter.

## Model

| member | source | states |
|---|---|---|
| Common.CountTrue | src/components/FilterBar/FilterBar.tsx:57-63 | the number of truthy entries is at most the number of entries, and it is zero exactly when no entry is truthy |
| Keyed.FirstIndexOf | src/stores/ClientsStore.ts:41 | `find` by id: none exactly when no element has the id; otherwise the index of an element with the id, and no earlier element has it |
| Keyed.MaxKey | src/stores/ClientsStore.ts:35 | `Math.max` over the ids bounds every id and is attained by some element |
| Keyed.NextId | src/stores/ClientsStore.ts:33-36 | the new id is above every existing id; it is 1 for an empty list, and otherwise one more than an existing id |
| Keyed.Without | src/stores/ClientsStore.ts:51 | `filter` by id: keeps exactly the elements whose id differs, and never grows the list |
| Keyed.WithoutAppend | src/stores/ClientsStore.ts:51 | removing by id distributes over concatenation, so the survivors keep their order |
| Keyed.WithoutAbsent | src/stores/ClientsStore.ts:51 | removing an id that no element has leaves the list unchanged |
| Keyed.WithoutIdempotent | src/stores/ClientsStore.ts:51 | removing the same id twice is the same as removing it once |
| Keyed.WithoutKeepsDistinct | src/stores/ClientsStore.ts:51 | removal keeps ids pairwise distinct |
| Keyed.WithoutRemovesOne | src/stores/ClientsStore.ts:51 | with distinct ids, removing a present id shortens the list by exactly one |
| Clients.SeedClients | src/stores/ClientsStore.ts:12-26 | the initial client list has pairwise distinct ids |
| Clients.AddedClients | src/stores/ClientsStore.ts:32-38 | one client is appended at the end with the input's fields; earlier clients are unchanged; its id is above every existing id, and 1 for an empty list |
| Clients.Patched | src/stores/ClientsStore.ts:42-46 | each field the patch defines is overwritten, every other field and the id are kept |
| Clients.UpdatedClients | src/stores/ClientsStore.ts:40-48 | the length and all ids are kept; with an unknown id nothing changes; the first client with the id is patched, and any changed entry is that one |
| Clients.UpdatePatchesMatching | src/stores/ClientsStore.ts:40-48 | with distinct ids, updating a present id patches exactly that client and leaves every other slot as it was |
| Clients.DeletedClients | src/stores/ClientsStore.ts:51 | the list after delete holds exactly the clients with another id, and is no longer than before |
| Clients.OpKeepsDistinct | src/stores/ClientsStore.ts:32-52 | each of add, update and delete keeps client ids pairwise distinct |
| Clients.OpsKeepDistinct | src/stores/ClientsStore.ts:32-52 | any sequence of add, update and delete keeps client ids pairwise distinct |
| Clients.IdsStayDistinct | src/stores/ClientsStore.ts:12-52 | starting from the seed list, client ids stay pairwise distinct under any sequence of operations |
| Clients.DeleteRemovesExactly | src/stores/ClientsStore.ts:50-52 | delete keeps exactly the clients with another id, in their order, and is idempotent |
| Clients.ClientsStore.constructor | src/stores/ClientsStore.ts:12-30 | the store starts with the seed list, ids distinct |
| Clients.ClientsStore.AddClient | src/stores/ClientsStore.ts:32-38 | the list becomes `AddedClients` of the old list, and ids stay distinct |
| Clients.ClientsStore.UpdateClient | src/stores/ClientsStore.ts:40-48 | the list becomes `UpdatedClients` of the old list; the found client is patched in place |
| Clients.ClientsStore.DeleteClient | src/stores/ClientsStore.ts:50-52 | the list becomes `DeletedClients` of the old list, and ids stay distinct |
| Services.SeedServices | src/stores/ServicesStore.ts:10-14 | the seed list has three services with ids 1, 2, 3 |
| Services.AddedServices | src/stores/ServicesStore.ts:20-26 | one service is appended with the input's name and price; earlier services are unchanged; its id is above every existing id, and 1 for an empty list |
| Services.Patched | src/stores/ServicesStore.ts:30-33 | a defined name or price is overwritten, everything else and the id are kept |
| Services.UpdatedServices | src/stores/ServicesStore.ts:28-34 | the length and ids are kept; with an unknown id nothing changes; the first service with the id is patched, and no other may change |
| Services.UpdatePatchesMatching | src/stores/ServicesStore.ts:28-34 | with distinct ids, updating a present id patches exactly that service and leaves every other slot as it was |
| Services.DeletedServices | src/stores/ServicesStore.ts:37 | the list after delete holds exactly the services with another id, and is no longer than before |
| Services.OpsKeepDistinct | src/stores/ServicesStore.ts:20-38 | any sequence of add, update and delete keeps service ids distinct |
| Services.IdsStayDistinct | src/stores/ServicesStore.ts:10-38 | from the seed ids 1, 2, 3, service ids stay distinct |
| Services.DeleteRemovesExactly | src/stores/ServicesStore.ts:36-38 | delete keeps exactly the services with another id, in order, and is idempotent |
| Services.ServicesStore.constructor | src/stores/ServicesStore.ts:10-18 | the store starts with the seed list |
| Services.ServicesStore.AddService | src/stores/ServicesStore.ts:20-26 | the list becomes `AddedServices` of the old list, ids distinct |
| Services.ServicesStore.UpdateService | src/stores/ServicesStore.ts:28-34 | the list becomes `UpdatedServices` of the old list |
| Services.ServicesStore.DeleteService | src/stores/ServicesStore.ts:36-38 | the list becomes `DeletedServices` of the old list |
| Orders.SeedOrders | src/stores/OrdersStore.ts:13-34 | the seed orders have distinct ids |
| Orders.Toggle | src/stores/OrdersStore.ts:51 | the status always changes; in progress becomes completed and completed becomes in progress |
| Orders.AddedOrders | src/stores/OrdersStore.ts:40-46 | one order is appended with the input's fields and an id above every existing id, 1 for an empty list; earlier orders are unchanged |
| Orders.ToggledOrders | src/stores/OrdersStore.ts:48-53 | with an unknown id nothing changes; the first order with the id has its status toggled, and no other order's status changes; ids, clients and services are kept |
| Orders.ToggleTwiceRestores | src/stores/OrdersStore.ts:48-53 | toggling the same id twice restores the list |
| Orders.ToggleFlipsMatching | src/stores/OrdersStore.ts:49-52 | with distinct ids, the matching order's status is toggled and every other order is unchanged |
| Orders.OrdersStore.constructor | src/stores/OrdersStore.ts:13-38 | the store starts with the seed orders |
| Orders.OrdersStore.AddOrder | src/stores/OrdersStore.ts:40-46 | the list becomes `AddedOrders` of the old list |
| Orders.OrdersStore.ToggleStatus | src/stores/OrdersStore.ts:48-53 | the list becomes `ToggledOrders` of the old list |
| Cars.QueryFor | src/stores/CarStore.ts:51-72 | the query carries a search clause, a lower date bound and an upper date bound exactly when the respective filter is non-empty, and each clause carries that filter's value |
| Cars.MirrorAfterSelect | src/stores/CarStore.ts:79-89 | after a fetch the mirror is the returned rows, empty for a null reply, and empty after a failure |
| Cars.Prepended | src/stores/CarStore.ts:134-136 | a returned car is put at index 0 with the old list after it; no row, no change |
| Cars.Replaced | src/stores/CarStore.ts:167-172 | the length is kept; with no row or no match nothing changes; when a row is returned, the first car with the id is replaced by it, and no other car changes |
| Cars.ReplacedAt | src/stores/CarStore.ts:167-172 | with distinct ids, the update writes the returned row at the matching index |
| Cars.DeleteRemovesExactly | src/stores/CarStore.ts:198-200 | delete keeps exactly the cars with another id, in their order |
| Cars.CarStore.constructor | src/stores/CarStore.ts:24-34 | the store starts with empty filters, no timer and not loading, and holds the result of the first unfiltered fetch |
| Cars.CarStore.FilterActive | src/stores/CarStore.ts:138 | a filter is active exactly when the current query carries some clause |
| Cars.CarStore.FetchAllCars | src/stores/CarStore.ts:45-96 | while loading it returns an empty list and changes nothing; otherwise loading ends false, the mirror is the reply to the current filters' query, and a failure is re-raised |
| Cars.CarStore.DebouncedFetch | src/stores/CarStore.ts:36-43 | the pending timer is replaced by a fresh one, so exactly one is pending |
| Cars.CarStore.TimerFires | src/stores/CarStore.ts:40-42 | when the pending timer fires it is gone and a fetch with the current filters runs |
| Cars.CarStore.SetSearchTerm | src/stores/CarStore.ts:98-100 | the search term is set and nothing else changes |
| Cars.CarStore.SetFilters | src/stores/CarStore.ts:102-109 | only the filter fields present in the patch are overwritten, then one fresh timer is pending |
| Cars.CarStore.ResetFilters | src/stores/CarStore.ts:111-116 | all three filters become empty, so no filter is active, and one fresh timer is pending |
| Cars.CarStore.FilteredCars | src/stores/CarStore.ts:118-120 | the derived list is the mirror itself; the server has already filtered it |
| Cars.CarStore.AddCar | src/stores/CarStore.ts:122-152 | on success the returned car is prepended and returned; on failure the mirror is unchanged and the error re-raised; loading ends false; the filtered refetch changes nothing |
| Cars.CarStore.UpdateCar | src/stores/CarStore.ts:154-188 | on success the first car with the id is replaced in place; on failure nothing changes and the error is re-raised; loading ends false; the refetch changes nothing |
| Cars.CarStore.DeleteCar | src/stores/CarStore.ts:190-214 | on success exactly the cars with the id are removed; on failure nothing changes and the error is re-raised; loading ends false; the refetch changes nothing |
| Cars.CarStore.RefetchIfFiltered | src/stores/CarStore.ts:138-140 | the corrected refetch: with a filter active the mirror becomes the filtered reply and a failure is reported; without one nothing changes |
| Cars.CarStore.AddCarRefetching | src/stores/CarStore.ts:122-152 | corrected `addCar`: under an active filter the mirror ends as the server's filtered reply |
| Cars.CarStore.UpdateCarRefetching | src/stores/CarStore.ts:154-188 | corrected `updateCar`: under an active filter the mirror ends as the server's filtered reply |
| Cars.CarStore.DeleteCarRefetching | src/stores/CarStore.ts:190-214 | corrected `deleteCar`: under an active filter the mirror ends as the server's filtered reply |
| Cars.AddUnderFilterKeepsUnfilteredRow | src/stores/CarStore.ts:123-140 | with a search term set and an empty filtered reply, the mirror as written keeps the inserted car, while the corrected method ends with the server's reply |
| Cars.UpdateUnderFilterKeepsUnfilteredRow | src/stores/CarStore.ts:155-176 | under a date filter an updated car that no longer matches stays in the mirror as written; the corrected method drops it |
| Cars.DeleteUnderFilterKeepsStaleRow | src/stores/CarStore.ts:191-204 | under a search term the mirror as written keeps a row the filtered reply no longer has; the corrected method drops it |
| JsDate.DaysInMonth | src/components/FilterBar/FilterBar.tsx:109 | every month has 28 to 31 days |
| JsDate.YearStep | src/utils/dateUtils.ts:4 | the day count before the next year adds the days of this year |
| JsDate.MonthStep | src/utils/dateUtils.ts:4 | the day count before the next month adds this month's days, and twelve months make the year |
| JsDate.NextMonthStart | src/components/FilterBar/FilterBar.tsx:109 | the first of the next month, or of January of the next year, is one month's days after the first of this month |
| JsDate.NormalizeDay | src/utils/dateUtils.ts:4 | an overflowing day is carried into a valid month and day with the same day number; an in-range day is kept |
| JsDate.NewDate | src/utils/dateUtils.ts:4 | `new Date(y, m, d, h, mi, s)` has the given time, the day number of the normalised year, month and day, and the exact fields when they are already in range |
| JsDate.SetDate | src/components/FilterBar/FilterBar.tsx:103-106 | `setDate` keeps the time and moves to the given day of the same month, carried over as needed; an invalid date stays invalid |
| JsDate.Weekday | src/components/FilterBar/FilterBar.tsx:100 | `getDay` lies in 0..6 |
| JsDate.SameDayNumberSameDate | src/components/FilterBar/FilterBar.tsx:103-106 | two dates with the same day number have the same year, month and day |
| JsDate.YearBounds | src/utils/dateUtils.ts:4 | a date's day number lies within its year |
| JsDate.DaysBeforeYearMonotone | src/utils/dateUtils.ts:4 | each year has at least 365 days |
| JsDate.MonthBeforeLater | src/utils/dateUtils.ts:4 | a month ends no later than any later month begins |
| DateUtils.Split | src/utils/dateUtils.ts:3 | `split` yields at least one piece |
| DateUtils.SplitPiece | src/utils/dateUtils.ts:3 | a piece without the separator followed by the separator splits off as the first piece |
| DateUtils.DigitChar | src/utils/dateUtils.ts:15-16 | a digit below 10 is written as a digit character |
| DateUtils.DigitValue | src/utils/dateUtils.ts:3 | a digit character reads back as the digit it encodes |
| DateUtils.ToNumber | src/utils/dateUtils.ts:3 | `Number("")` is 0, and a non-empty text gives a number only when it is all digits |
| DateUtils.NatToString | src/utils/dateUtils.ts:14-17 | `String(n)` of a natural number is non-empty decimal text that reads back as n |
| DateUtils.TwoDigits | src/utils/dateUtils.ts:15-16 | the padded text has exactly two digits and reads back as the number |
| DateUtils.PadTwoDigits | src/utils/dateUtils.ts:15-16 | `String(n).padStart(2, "0")` is the two-digit text of n for n below 100 |
| DateUtils.FormatLocalDate | src/utils/dateUtils.ts:13-18 | year text, "-", the 1-based month in two digits, "-", the day in two digits; an invalid date prints NaN for each part |
| DateUtils.ParseAt | src/utils/dateUtils.ts:1-11 | null or empty text gives null; otherwise a date at the given time |
| DateUtils.ParseLocalDate | src/utils/dateUtils.ts:1-5 | null or empty text gives null; otherwise a date at 00:00:00 |
| DateUtils.ParseLocalDateEnd | src/utils/dateUtils.ts:7-11 | null or empty text gives null; otherwise a date at 23:59:59 |
| DateUtils.StartBeforeEnd | src/utils/dateUtils.ts:1-11 | both parsers are null on the same inputs; otherwise they give the same day, and the start is before the end |
| DateUtils.FormatSplits | src/utils/dateUtils.ts:13-18 | splitting a formatted date at "-" gives the year, month and day texts |
| DateUtils.ParseDigitPieces | src/utils/dateUtils.ts:3-4 | text of three digit pieces parses to `new Date(y, m - 1, d)` at the given time |
| DateUtils.FormatParseRoundTrip | src/utils/dateUtils.ts:1-18 | parsing a formatted date gives the same year, month and day, at 00:00:00 for the start and 23:59:59 for the end (years from 100) |
| DateUtils.TwoDigitYearsComeBackIn1900s | src/utils/dateUtils.ts:4 | a formatted date in the years 0 to 99 parses back into the 1900s |
| FilterBar.AnyFilterActive | src/components/FilterBar/FilterBar.tsx:50-55 | the badge shows exactly when one of the five candidate filters is truthy |
| FilterBar.ActiveFilterCount | src/components/FilterBar/FilterBar.tsx:57-63 | the count is at most 5, and 0 exactly when none of the five candidate filters is truthy |
| FilterBar.CountMatchesBadge | src/components/FilterBar/FilterBar.tsx:50-63 | a filter is active exactly when the badge count is positive, and the count is at most 5 |
| FilterBar.AllQuickFilterCountsNothing | src/components/FilterBar/FilterBar.tsx:55-62 | the quick filter "all" counts as no quick filter |
| FilterBar.ResetDisabledIffNoFilter | src/components/FilterBar/FilterBar.tsx:274 | the reset button is disabled exactly when no filter is active |
| FilterBar.DiffToMonday | src/components/FilterBar/FilterBar.tsx:100-101 | for a weekday 0..6, stepping back this many days (0..6) lands on a Monday |
| FilterBar.DiffToSunday | src/components/FilterBar/FilterBar.tsx:100-102 | for a weekday 0..6, stepping forward this many days (0..6) lands on a Sunday |
| FilterBar.WeekDiffsSpanSixDays | src/components/FilterBar/FilterBar.tsx:100-102 | for every weekday the steps back to Monday and forward to Sunday lie in 0..6 and add up to 6 |
| FilterBar.StartOfToday | src/components/FilterBar/FilterBar.tsx:89-94 | the start of today is a valid date |
| FilterBar.WeekAround | src/components/FilterBar/FilterBar.tsx:99-106 | the week bounds are valid dates |
| FilterBar.QuickRange | src/components/FilterBar/FilterBar.tsx:88-110 | each quick range has valid bounds |
| FilterBar.TodayRange | src/components/FilterBar/FilterBar.tsx:89-97 | "today" runs from today at midnight to the same instant |
| FilterBar.WeekEnds | src/components/FilterBar/FilterBar.tsx:100-106 | stepping back by the Monday difference lands on weekday 1, and forward by the Sunday difference on weekday 0 |
| FilterBar.WeekAroundBounds | src/components/FilterBar/FilterBar.tsx:99-106 | the week runs from a Monday to the Sunday six days later, contains the start day, and keeps its time |
| FilterBar.WeekRange | src/components/FilterBar/FilterBar.tsx:99-106 | "week" runs from Monday to Sunday at midnight, six days apart, around today |
| FilterBar.MonthRange | src/components/FilterBar/FilterBar.tsx:107-110 | "month" runs from day 1 to the last day of the current month |
| FilterBar.IsRangeActive | src/components/FilterBar/FilterBar.tsx:184-210 | a highlighted button's local dates are non-empty, and the highlighted "today" button has equal from and to |
| FilterBar.FormatInjective | src/utils/dateUtils.ts:13-18 | two dates with equal formatted text have the same year, month and day |
| FilterBar.NearbyYearNonNegative | src/components/FilterBar/FilterBar.tsx:104 | a date at most six days before a date in year 100 or later is in year 0 or later |
| FilterBar.DifferentLengthsDifferentText | src/components/FilterBar/FilterBar.tsx:208-210 | ranges of different lengths differ in formatted start or end |
| FilterBar.TodayWeekExclusive | src/components/FilterBar/FilterBar.tsx:184-210 | the "today" and "week" buttons never show the same range |
| FilterBar.TodayMonthExclusive | src/components/FilterBar/FilterBar.tsx:184-210 | the "today" and "month" buttons never show the same range |
| FilterBar.WeekMonthExclusive | src/components/FilterBar/FilterBar.tsx:184-210 | the "week" and "month" buttons never show the same range |
| FilterBar.AtMostOneRangeActive | src/components/FilterBar/FilterBar.tsx:208-210 | at most one quick-range button is highlighted |
| FilterBar.FilterPopover.constructor | src/components/FilterBar/FilterBar.tsx:41-45 | closed, with the local values taken from the props, missing ones as "" |
| FilterBar.FilterPopover.ToggleOpen | src/components/FilterBar/FilterBar.tsx:120 | the filter button flips open |
| FilterBar.FilterPopover.ClickOutside | src/components/FilterBar/FilterBar.tsx:74-86 | a press outside closes the popover |
| FilterBar.FilterPopover.SyncFromProps | src/components/FilterBar/FilterBar.tsx:65-72 | while open the local values are reloaded from the props; while closed they are kept |
| FilterBar.FilterPopover.ApplyQuickRange | src/components/FilterBar/FilterBar.tsx:88-114 | after applying a quick range, that range's button is highlighted |
| FilterBar.FilterPopover.Confirm | src/components/FilterBar/FilterBar.tsx:257-263 | the search callback and each given optional callback receive the local values, in order, then the popover closes |
| OrderRecords.StatusOptions | src/features/orders/OrdersPage.tsx:16-23 | six distinct statuses, from "Nowe" to "Anulowane" |
| OrderRecords.LabelsDistinct | src/features/orders/OrderModal.tsx:20-27 | two statuses have the same label exactly when they are the same status |
| OrderRecords.StatusOptionsComplete | src/features/orders/OrdersPage.tsx:16-23 | every status is listed |
| OrderRecords.TotalPrice | src/features/orders/OrdersPage.tsx:77-80 | no services total 0, one service totals its price, and non-negative prices give a non-negative total |
| OrderRecords.TotalPriceAppend | src/features/orders/OrdersPage.tsx:77-80 | the total of no services is 0, and totals add over concatenation |
| OrderRecords.TotalPriceBounds | src/features/orders/OrdersPage.tsx:77-80 | with non-negative prices the total is non-negative and at least each single price |
| OrdersPage.InsertByKey | src/features/orders/OrdersPage.tsx:49 | inserting into a descending list keeps it descending and adds exactly the one element |
| OrdersPage.SortByIdDesc | src/features/orders/OrdersPage.tsx:49 | the sorted copy is in descending id order and a permutation of the orders |
| OrdersPage.FirstHasLargestId | src/features/orders/OrdersPage.tsx:49 | the first sorted order has the largest id |
| OrdersPage.ToggleExpand | src/features/orders/OrdersPage.tsx:30-33 | clicking the expanded order collapses it; any other click expands only that order |
| OrdersPage.ToggleExpandTwice | src/features/orders/OrdersPage.tsx:30-33 | two clicks on the same order restore the state exactly when nothing or that order was expanded |
| OrdersPage.StatusChange | src/features/orders/OrdersPage.tsx:45-47 | the status change is an update of that order carrying only the new status |
| OrderModal.Toggled | src/features/orders/OrderModal.tsx:54-58 | toggling flips the membership of the id and of no other id |
| OrderModal.ToggleTwiceSameMembers | src/features/orders/OrderModal.tsx:54-58 | toggling twice restores the membership of every id |
| OrderModal.ToggleTwiceRestores | src/features/orders/OrderModal.tsx:54-58 | toggling in and out an absent id restores the exact list |
| OrderModal.ToggleKeepsDistinct | src/features/orders/OrderModal.tsx:55-57 | toggling never introduces a duplicate id |
| OrderModal.SelectedServices | src/features/orders/OrderModal.tsx:64-66 | the saved services are exactly the store services whose id is selected |
| OrderModal.SelectedInStoreOrder | src/features/orders/OrderModal.tsx:64-66 | the selection distributes over concatenation, so it keeps store order |
| OrderModal.FindClient | src/features/orders/OrderModal.tsx:63 | a client is found exactly when one has the id, and the found client is in the list with that id |
| OrderModal.OrderForm.constructor | src/features/orders/OrderModal.tsx:35-38 | the form starts with no client, no services, status "Przyjęte" and empty notes |
| OrderModal.OrderForm.Init | src/features/orders/OrderModal.tsx:40-52 | with an order and not in add mode the form is loaded from it; otherwise it resets to the defaults |
| OrderModal.OrderForm.ToggleService | src/features/orders/OrderModal.tsx:54-58 | the service list becomes its toggle and stays free of duplicates |
| OrderModal.OrderForm.HandleSave | src/features/orders/OrderModal.tsx:60-75 | with no client or no services nothing happens; otherwise it closes, and edit mode with an order issues an update while add mode issues an add, each with the chosen client and selected services |
| OrderModal.HandleDelete | src/features/orders/OrderModal.tsx:77-82 | with an order it issues the delete of that id and closes; without one it does nothing |
| Grouping.FirstKeys | src/features/dashboard/DashboardPage.tsx:33-38 | the dictionary's keys are distinct and include every element's key |
| Grouping.FirstKeysOnlyKeys | src/features/dashboard/DashboardPage.tsx:33-38 | every dictionary key is some element's key |
| Grouping.KeyTotalAbsent | src/features/dashboard/DashboardPage.tsx:21 | a key no element has totals 0 |
| Grouping.SumOverSnoc | src/features/dashboard/DashboardPage.tsx:34-37 | adding an element adds its weight to the sum over the keys that include its key |
| Grouping.SumOverCovering | src/features/dashboard/DashboardPage.tsx:34-37 | summing per-key totals over distinct keys that cover all elements gives the grand total |
| Grouping.SumOverEmpty | src/features/dashboard/DashboardPage.tsx:33 | with no elements every per-key sum is 0 |
| Grouping.GroupedEntries | src/features/dashboard/DashboardPage.tsx:38 | there is one entry per distinct key |
| Grouping.SumValuesIsSumOver | src/features/dashboard/DashboardPage.tsx:38 | the entries' values add up to the sum of the per-key totals |
| Grouping.GroupedEntriesSum | src/features/dashboard/DashboardPage.tsx:32-39 | the entries' values add up to the total weight of all elements |
| Grouping.TallyStep | src/features/dashboard/DashboardPage.tsx:36 | one accumulation step keeps the dictionary equal to the totals of the prefix seen so far |
| Grouping.GroupTotals | src/features/dashboard/DashboardPage.tsx:33-37 | the loop's dictionary has keys in first-seen order, and each value is that key's total weight |
| Dashboard.TotalOfOnes | src/features/dashboard/DashboardPage.tsx:36 | counting 1 per order gives the number of orders |
| Dashboard.StatusCounts | src/features/dashboard/DashboardPage.tsx:20-23 | a status is a key exactly when some order has it, and its value is its positive count |
| Dashboard.CountPositive | src/features/dashboard/DashboardPage.tsx:21 | a status some order has gets a positive count |
| Dashboard.CountNonNegative | src/features/dashboard/DashboardPage.tsx:21 | counts are never negative |
| Dashboard.StatusCountsSumToOrders | src/features/dashboard/DashboardPage.tsx:20-23 | the per-status counts over all six statuses add up to the number of orders |
| Dashboard.PieData | src/features/dashboard/DashboardPage.tsx:25-30 | every slice is a listed status with its positive count, and every listed status with a positive count has its slice |
| Dashboard.PieTotalIsSumOver | src/features/dashboard/DashboardPage.tsx:25-30 | the slices add up to the counts of the listed statuses |
| Dashboard.PieCoversAllOrders | src/features/dashboard/DashboardPage.tsx:20-30 | over all six statuses, the pie accounts for every order |
| Dashboard.DailyOrdersData | src/features/dashboard/DashboardPage.tsx:32-39 | one entry per date key with that day's order count, and the counts add up to the number of orders |
| Dashboard.CompletedOrders | src/features/dashboard/DashboardPage.tsx:43-44 | keeps exactly the completed orders, each as often as in the store, and nothing else |
| Dashboard.CompletedOrdersAppend | src/features/dashboard/DashboardPage.tsx:43-44 | the filter distributes over concatenation, so completed orders keep their store order |
| Dashboard.CompletedOrdersCounted | src/features/dashboard/DashboardPage.tsx:43-44 | there are as many completed orders as the per-status count of completed orders |
| Dashboard.DailyRevenue | src/features/dashboard/DashboardPage.tsx:41-54 | one entry per date key of completed orders with that day's summed prices, and the days add up to the completed orders' total |
| Dashboard.TodayRevenue | src/features/dashboard/DashboardPage.tsx:57-58 | 0 when no entry is today's; otherwise the first entry for today |
| Dashboard.TodayRevenueIsDayTotal | src/features/dashboard/DashboardPage.tsx:56-58 | today's revenue is the total price of the completed orders dated today |
| Dashboard.CompletedCount | src/features/dashboard/DashboardPage.tsx:70 | the number of completed orders: at most the number of orders, and 0 exactly when no order is completed |
| Dashboard.CompletedCountMatchesStatusCounts | src/features/dashboard/DashboardPage.tsx:20-23 | the completed-orders card equals the `Completed` figure of the per-status counts (0 when absent) |

## Findings

| source | as written | input that shows it | evidently intended | confidence | as-written member | corrected member |
|---|---|---|---|---|---|---|
| src/stores/CarStore.ts:123-140 | `addCar` sets `loading` before it calls `fetchAllCars` to re-apply the filters, and `fetchAllCars` returns at once while loading (line 46), so the list is never re-read | search term "Audi"; the insert returns car-1; the filtered select returns no rows: the mirror keeps car-1 | with a filter active, the mirror is the server's filtered reply after the insert | not executed | Cars.AddUnderFilterKeepsUnfilteredRow | Cars.CarStore.AddCarRefetching |
| src/stores/CarStore.ts:155-176 | `updateCar` has the same order of `loading = true` and the refetch | date filter from 2025-01-01; the update returns car-1; the filtered select returns no rows: the mirror keeps car-1 | with a filter active, the mirror is the server's filtered reply after the update | not executed | Cars.UpdateUnderFilterKeepsUnfilteredRow | Cars.CarStore.UpdateCarRefetching |
| src/stores/CarStore.ts:191-204 | `deleteCar` has the same order of `loading = true` and the refetch | search term "Audi"; mirror car-1, car-2; car-1 deleted; the filtered select returns no rows: the mirror keeps car-2 | with a filter active, the mirror is the server's filtered reply after the delete | not executed | Cars.DeleteUnderFilterKeepsStaleRow | Cars.CarStore.DeleteCarRefetching |

`AddCar`, `UpdateCar` and `DeleteCar` model the code as written. Each one calls `FetchAllCars` under an active filter, and its contract is proved independent of the select function, which shows that the call changes nothing. The three corrected methods clear the flag first, through `RefetchIfFiltered`.

## Left out

- **The database gateway.** The replies to select, insert, update and delete are parameters of the methods that need them. Each async method is one atomic step, so interleavings of concurrent calls are not modelled.
- **The query builder.** The text of the PostgREST `or(... ilike ...)` search filter (src/stores/CarStore.ts:57-59) is not modelled. Neither is the `toISOString` conversion of the day bounds (62-72), which depends on the time zone. `QueryFor` records only which clauses are present and their source values.
- **Unmodelled effects.** The progress bar (`NProgress`) and console logging are left out.
- **Timers and the clock.**
  - `setTimeout` and `clearTimeout` become a set of pending handles. The 300 ms delay is not modelled.
  - The current time is a parameter `now`. The quick-range apply and the button highlighting are taken to read the same clock value.
- **`AuthStore`, rendering-only components and mock data.** These are outside the modelled core.
- **Prices.** They are integers, not floating point.
- **Aliasing.** The orders on the pages hold client and service values, not shared objects.
- **Insert and update payloads.** The fields sent to the database (client id, `createdAt` and the like) are not checked. Only the returned row matters.
- **`Date` range limits.** The ±8.64e15 ms range of `Date` is not modelled, so no date is invalid because of it. Time fields take only the values the code passes.
- **Daylight-saving and zone changes.** `Date` is taken in a time zone without clock changes. `new Date(y, m, d, h, mi, s)` is assumed to keep the requested local time. A local time that a daylight-saving change skips, which JavaScript moves forward (midnight to 01:00, or to the next day when a zone change skips a whole day), is not modelled. `NewDate`, `ParseLocalDate`, `ParseLocalDateEnd` and `StartOfToday` therefore state the requested hour, minute and second.
- **`Number()`.** Only the empty text (0) and digit strings are modelled. Signs, surrounding whitespace, decimals, exponents, `Infinity` and the `0x`, `0o` and `0b` prefixes are treated as not a number. Date text of the form `YYYY-MM-DD` never has them.
- **`String()` of numbers.** Negative years are written with a leading "-". Exponent forms never arise for the modelled range.
- **`toLocaleDateString`.** This becomes an abstract date-key function `dateKey`, so the locale and time zone are not modelled.
- **`Object.entries` order.** The model keeps keys in first-seen order. For integer-like keys JavaScript lists keys in ascending numeric order instead, which the date keys in use are not.
- **The pie's status list.** The list of statuses is a parameter, because the imported `STATUS_COLORS` map does not exist in the repository's `Card` component. `PieCoversAllOrders` uses the six statuses of the orders page.
- **The two order shapes.** `OrdersStore` keeps two statuses and one service per order, while the pages use six statuses, a client object and a service list. The pages' `updateOrder`, `addOrder` and `deleteOrder` calls, which `OrdersStore` does not define, are returned as `OrderCall` values.
- **The dialog shell.** The mode `""` and the opening and closing of the order dialog are left out. The dialog's `onClose` is the returned `closes` flag.
- **The quick-filter buttons.** `onQuickFilterChange` (src/components/FilterBar/FilterBar.tsx:234-250) only forwards a constant to a callback.
- FormatParseRoundTrip: it holds only for years from 100. For years 0 to 99, `new Date` moves the parsed year into the 1900s (see `TwoDigitYearsComeBackIn1900s`). Negative years do not parse back at all.
- TodayRange: stated for years from 100, for the same reason.
- MonthRange: stated for years from 100, for the same reason.
- AtMostOneRangeActive: stated for years from 100, for the same reason.
- SortByIdDesc: the contract states order and permutation, but not stability for equal ids.
- ApplyQuickRange: it computes the range through `QuickRange` instead of mutating two `Date` objects with `setDate`. Its contract is that the applied range is the highlighted one, and the range itself is specified by the range lemmas.
- FilteredCars: it returns the mirror unchanged, as the getter does. The filtering happens on the server.
