# Meal tracker core in Dafny

A model of the core of a small mobile meal tracker. The app records, per
billing period and calendar day, whether breakfast, lunch and dinner were
eaten and at what price. It sums the eaten prices per day and per date range,
builds a day-by-day report, and asks through notifications whether a meal was
eaten. The model covers:

- **The data types** (`types.dfy`, module `Types`): meal kinds, the
  three-state status, the rows of the four tables, the day view and the
  fixed prices (breakfast 5, lunch 10, dinner 7 or 10).
- **The store** (`database.dfy`, module `Database`): class `Store` holds the
  handle flag and the four tables (periods, meal_entries, disabled_days,
  schedule) as sequences in insertion order, plus the AUTOINCREMENT
  counters. Each SQL statement is a function over the rows. Its lemmas state
  what the statement guarantees:
  - one active period after `createPeriod`;
  - the upsert on (period, date, meal);
  - the idempotent INSERT OR IGNORE and DELETE of disabled days;
  - delete-then-insert of a schedule slot;
  - the ORDER BY orders, and the totals.
  Every writing method keeps `Valid()`: distinct positive ids below the
  counter, the UNIQUE keys of meal_entries and disabled_days, and at most
  one schedule row per (period, weekday, meal). The schedule table has no
  UNIQUE constraint; its writers keep that key by deleting before they
  insert.
- **The notification service** (`notifications.dfy`, module
  `Notifications`):
  - the categories and their buttons;
  - the payloads of meal checks and reminders;
  - the five-minutes-earlier reminder time (a method with the source's
    borrow-and-wrap steps);
  - which entry an answer writes, through the store's upsert;
  - the platform's queue of scheduled notifications as class
    `NotificationCenter`, whose identifiers stay distinct.
- **The meal card** (`meal_card.dfy`, module `MealCard`): status, displayed
  price, the event a tap emits, and the dinner price selector.
- **The day view** (`home_screen.dfy`, module `HomeScreen`): class
  `HomeScreen` holds the shown date, period, loaded day and loading flag,
  with first-launch period creation, day navigation, toggling a meal and
  returning to the foreground.
- **The report** (`report_screen.dfy`, module `ReportScreen`): the default
  16th-to-15th range, the `while` loop that builds one row per day (method
  `BuildReport`, proved to produce `ReportRows`), the grand total (proved
  equal to the store's period total), the status renderings, and class
  `ReportScreen` for the screen state.
- **Calendar arithmetic** (`calendar.dfy`): the JavaScript `Date` steps the
  screens use. Dates are (year, month, day) triples compared
  lexicographically, which is how `YYYY-MM-DD` strings compare.
- **Helpers**: `seqs.dfy` holds the generic `find`, `filter` and `reduce`;
  `sorting.dfy` holds the ordering that ORDER BY gives; `wrappers.dfy`
  holds Option, Result and Outcome.

The clock ("today", the database's `CURRENT_TIMESTAMP`) is a parameter
everywhere. Writes before `initDatabase` return `Err`/`Fail(NotInitialized)`
where the source throws. Reads before it return null, `[]`, `false` or `0`,
as the source does.

## Model

| member | source | states |
|---|---|---|
| Calendar.DateLeIsTotalOrder | src/screens/HomeScreen.tsx:31-34 | date comparison (the `YYYY-MM-DD` string comparison) is reflexive, total, antisymmetric and transitive |
| Calendar.ShiftMonth | src/screens/ReportScreen.tsx:36-41 | a month index out of 1..12 rolls into the neighbouring year, keeping year*12+month fixed |
| Calendar.NextIsSuccessor | src/screens/HomeScreen.tsx:157-159 | `setDate(getDate() + 1)` gives a real date strictly after the day and no later than any later real date |
| Calendar.PrevIsPredecessor | src/screens/HomeScreen.tsx:148-150 | `setDate(getDate() - 1)` gives a real date strictly before the day and no earlier than any earlier real date |
| Calendar.PrevNextInverse | src/screens/HomeScreen.tsx:148-164 | a step forward and a step back cancel, in either order |
| Calendar.AddMonths | src/screens/HomeScreen.tsx:51-55 | `setMonth(getMonth() + k)` keeps the day and lands in the shifted month when that month has the day; otherwise it spills into the month after the shifted one, on the day minus that month's length |
| Calendar.AddOneMonthBrackets | src/screens/HomeScreen.tsx:51-55 | one month back is strictly earlier and one month on strictly later than the day |
| Types.ParseMealType | src/services/database.ts:240-249 | reading a `meal_type` text gives the meal whose name it is; any other text gives none |
| Types.MealTypeNameRoundTrip | src/services/database.ts:240-249 | every meal kind reads back from its stored name |
| Types.MealTypeRankFollowsNames | src/services/database.ts:154 | the meal rank used for `ORDER BY meal_type` orders meals exactly as their stored names sort as text |
| Database.StoredName | src/services/database.ts:71 | a missing or empty name is stored as NULL, any other name unchanged |
| Database.CreatePeriodKeepsOneActive | src/services/database.ts:63-74 | after `createPeriod` every old period is inactive, at most one period is active, and it is the new one exactly when that one was created active |
| Database.DeactivatedKeepsIds | src/services/database.ts:67 | deactivating keeps the ids valid and distinct |
| Database.Patched | src/services/database.ts:77-104 | same number of rows; the row with the id gets the supplied fields when some field is supplied, all other rows stay as they were |
| Database.UpdatePeriodNoop | src/services/database.ts:100-103 | no UPDATE runs when no field is supplied, and none changes anything when no row has the id |
| Database.UpdatePeriodChangesOnlyTarget | src/services/database.ts:83-98 | each field not supplied keeps its value; a supplied name is stored with an empty one as NULL; supplied dates and flag are stored; the id never changes |
| Database.UpdatePeriodKeepsOneActiveUnlessActivating | src/services/database.ts:95-102 | an update that does not set `is_active` to true keeps at most one period active |
| Database.UpdatePeriodCanBreakOneActive | src/services/database.ts:95-102 | setting `is_active` on one period while another is active leaves two active periods |
| Database.UpdatePeriodBreaksOneActiveExample | src/services/database.ts:95-102 | a concrete two-row table with one active period, on which the update above breaks the one-active rule |
| Database.SaveMealEntryUpserts | src/services/database.ts:133-144 | after the upsert exactly one row has the key: it carries the new `ate`/`price` and the old row's id and `created_at` (or a fresh id and the current time); all other rows are unchanged; the UNIQUE key still holds |
| Database.SaveMealEntryLastWriteWins | src/services/database.ts:136-143 | two saves under one key equal one save with the second values and the first id and time |
| Database.UpsertKeepsIds | src/services/database.ts:136-143 | the upsert adds at most one row and takes the next id exactly when it adds one |
| Database.DaySlotIsKeyedRow | src/services/database.ts:261-267 | a day's slot for a meal is the row with (period, date, meal), the one `getMealEntry` finds |
| Database.EntriesBetween | src/services/database.ts:147-158 | exactly the period's rows dated within the range, sorted by date and then meal, a permutation of the filtered rows |
| Database.RangeTotalIsSumOfEaten | src/services/database.ts:282-293 | `SUM(price) .. AND ate = 1` equals the sum of the eaten prices over all rows in the range |
| Database.SumBySlots | src/services/database.ts:265-269 | with at most one row per meal, the reduce over a day's rows equals the sum over the three slots found by meal |
| Database.DayEntriesOnePerMeal | src/services/database.ts:29-39 | UNIQUE(period_id, date, meal_type) leaves at most one row per meal in a day of one period |
| Database.DisableDayIsIdempotent | src/services/database.ts:173-179 | INSERT OR IGNORE disables the day, a second call changes nothing, and other days' rows are untouched |
| Database.EnableDayEnables | src/services/database.ts:182-188 | the DELETE enables the day, keeps exactly the other rows, and changes nothing when the day was enabled |
| Database.DisableThenEnableRestores | src/services/database.ts:173-188 | disabling then enabling a day equals enabling alone, and restores the table when the day was enabled |
| Database.SaveScheduleItemReplaces | src/services/database.ts:223-237 | after delete-then-insert the slot holds exactly the new row and the other rows are unchanged; when no two rows shared a slot before, none do after |
| Database.SaveScheduleItemTwiceKeepsLatest | src/services/database.ts:223-237 | saving a slot twice leaves only the second row |
| Database.DeleteAndClearScheduleRemoveOnlyTheirRows | src/services/database.ts:240-256 | `deleteScheduleItem` empties the slot and keeps the rest; `clearSchedule` keeps exactly the other periods' rows |
| Database.SaveScheduleItemKeepsWellFormed | src/types/index.ts:27-34 | saving a row with weekday 0..6 and an `HH:MM` time keeps every schedule row well formed |
| Database.Store.constructor | src/services/database.ts:4 | the handle starts null, with empty tables |
| Database.Store.InitDatabase | src/services/database.ts:7-49 | opens the handle; CREATE TABLE IF NOT EXISTS keeps every row |
| Database.Store.GetActivePeriod | src/services/database.ts:54-60 | null before initialisation; otherwise an active stored period, or null only when no period is active |
| Database.Store.CreatePeriod | src/services/database.ts:63-74 | throws before initialisation; otherwise deactivates all rows, appends the new period with the fresh id and returns that id, leaving at most one active |
| Database.Store.UpdatePeriod | src/services/database.ts:77-104 | throws before initialisation; otherwise the rows become `Patched`, with ids kept valid |
| Database.Store.GetMealEntry | src/services/database.ts:109-120 | a stored row with the key, or null exactly when there is none or the handle is null |
| Database.Store.GetDayEntries | src/services/database.ts:123-130 | exactly the stored rows of the period and date, each as often as it is stored |
| Database.Store.SaveMealEntry | src/services/database.ts:133-144 | throws before initialisation; otherwise the rows become the upsert, and the counter advances exactly when a row is added |
| Database.Store.GetEntriesBetweenDates | src/services/database.ts:147-158 | exactly the period's stored rows in the range, ordered by date then meal, a permutation of those rows |
| Database.Store.IsDayDisabled | src/services/database.ts:163-170 | true exactly when a disabled_days row has the period and date (false before initialisation) |
| Database.Store.DisableDay | src/services/database.ts:173-179 | throws before initialisation; otherwise INSERT OR IGNORE, after which the day is disabled |
| Database.Store.EnableDay | src/services/database.ts:182-188 | throws before initialisation; otherwise the DELETE, after which the day is not disabled |
| Database.Store.GetDisabledDays | src/services/database.ts:191-198 | exactly the dates of the period's disabled_days rows |
| Database.Store.GetSchedule | src/services/database.ts:203-210 | exactly the period's schedule rows, each once as stored, ordered by weekday then meal |
| Database.Store.GetScheduleForDay | src/services/database.ts:213-220 | exactly the period's rows for the weekday, each once as stored, ordered by time |
| Database.Store.SaveScheduleItem | src/services/database.ts:223-237 | throws before initialisation; otherwise delete-then-insert of the slot with a fresh id |
| Database.Store.DeleteScheduleItem | src/services/database.ts:240-250 | throws before initialisation; otherwise removes the rows whose stored meal name is the given text, which is the slot's rows for a meal's name and nothing for any other text |
| Database.DeleteByNameIsDeleteBySlot | src/services/database.ts:240-250 | deleting by a meal's stored name removes exactly that meal's slot; a text naming no meal removes nothing |
| Database.Store.ClearSchedule | src/services/database.ts:253-256 | throws before initialisation; otherwise removes the period's rows |
| Database.Store.GetDayMeals | src/services/database.ts:261-279 | the date, the disabled flag, and the total as the sum of eaten prices over the day's rows |
| Database.Store.DayMealsSlots | src/services/database.ts:265-267 | each slot is that meal's stored row for the day, null exactly when there is none, and equals `getMealEntry` |
| Database.Store.CalculateTotalForPeriod | src/services/database.ts:282-293 | the sum of eaten prices over the period's rows in the range; 0 before initialisation |
| Database.Store.DayTotalAgreesWithPeriodTotal | src/services/database.ts:261-293 | the day view's total is the sum over its three slots and equals the period total over the one-day range |
| MealCard.StatusCases | src/components/MealCard.tsx:17-21 | "ate" exactly for an eaten entry on an enabled day; "not marked" exactly without an entry on an enabled day; otherwise "not eaten" |
| MealCard.DisplayPriceFollowsStatus | src/components/MealCard.tsx:26-29 | the displayed price is the entry's price on an "ate" card and 0 otherwise |
| MealCard.DefaultPrice | src/components/MealCard.tsx:32-37 | 5 for breakfast, 10 for lunch, 7 for dinner |
| MealCard.HandleToggle | src/components/MealCard.tsx:39-49 | no event exactly on a disabled card; otherwise the event marks eaten exactly when the card is not "ate", at the default price, else at 0 |
| MealCard.HandleDinnerPrice | src/components/MealCard.tsx:52-55 | no event exactly on a disabled card; otherwise eaten at the chosen price |
| MealCard.ToggleFlipsStatus | src/components/MealCard.tsx:39-49 | a stored tap flips "ate" and "not eaten" ("not marked" becomes "ate"), shows the default price or 0, and a second tap emits the opposite event |
| MealCard.SelectorOnlyForEatenDinner | src/components/MealCard.tsx:82 | the price selector shows exactly for an eaten dinner on an enabled day |
| MealCard.DinnerPriceHighlightsChoice | src/components/MealCard.tsx:82-116 | choosing a dinner price keeps the selector, shows that price and highlights exactly that button |
| MealCard.AtMostOneHighlighted | src/components/MealCard.tsx:84-116 | the two dinner price buttons are never both highlighted |
| Notifications.ReminderTime | src/services/notifications.ts:182-191 | for an in-range time, a valid time exactly five minutes earlier modulo a day; the same hour when minute >= 5; the previous hour (23 after 0) with minute + 55 otherwise |
| Notifications.AteFallbackPrice | src/services/notifications.ts:85 | the fallback price of an "ate" answer is never 0 |
| Notifications.ActionMark | src/services/notifications.ts:80-95 | "ate" is eaten at the payload price when one is given and nonzero, else the meal's price; "ate_default" eaten at 7; "ate_alternative" eaten at 10; every other identifier gives (false, 0) |
| Notifications.ResponseWrite | src/services/notifications.ts:56-104 | nothing is written exactly for a reminder, "ok", a tap on the body, no active period id, or no meal; otherwise the active period's row for the payload's meal with the action's mark |
| Notifications.HandleNotificationResponse | src/services/notifications.ts:56-104 | the entries become the upsert of `ResponseWrite` for today, or stay unchanged when it writes nothing; the id counter advances exactly by the rows added |
| Notifications.ReminderAnswersWriteNothing | src/services/notifications.ts:66-69 | a reminder never writes an entry, and its only button is "ok" |
| Notifications.CheckButtonsAgreeWithMealCard | src/services/notifications.ts:11-43 | every button of a meal check writes that meal; its first button stores what tapping an unmarked card stores, "not_ate" what tapping an eaten card stores, and dinner's alternative button 10 |
| Notifications.UnknownActionWritesNotEaten | src/services/notifications.ts:80-95 | an identifier no category registers writes "not eaten" at 0, as "not_ate" does |
| Notifications.NotificationCenter.constructor | src/services/notifications.ts:1 | an empty queue, no categories, identifiers from 1 |
| Notifications.NotificationCenter.RegisterNotificationCategories | src/services/notifications.ts:11-53 | the three categories are registered with their buttons in order, other registrations kept |
| Notifications.NotificationCenter.ScheduleMealNotification | src/services/notifications.ts:145-172 | appends a daily check at the meal time, with the dinner or meal category and the meal's price, and returns its id |
| Notifications.NotificationCenter.ScheduleReminderNotification | src/services/notifications.ts:175-211 | appends a daily reminder for the meal whose time plus five minutes is the meal time (modulo a day), in the same hour when the minute is at least 5 |
| Notifications.NotificationCenter.SendTestMealNotification | src/services/notifications.ts:107-124 | appends an immediate meal check with the meal's category and price |
| Notifications.NotificationCenter.SendTestReminderNotification | src/services/notifications.ts:127-142 | appends an immediate reminder for the meal |
| Notifications.NotificationCenter.CancelAllNotifications | src/services/notifications.ts:214-216 | empties the queue |
| Notifications.NotificationCenter.GetScheduledNotifications | src/services/notifications.ts:219-221 | the pending requests in scheduling order, no two sharing an identifier, each identifier one already handed out |
| HomeScreen.CanGoNextIsNextGuard | src/screens/HomeScreen.tsx:157-171 | `canGoNext` holds exactly when `goToNextDay` moves, it moves to the next day, and it is false without a period |
| HomeScreen.NavigationStaysInPeriod | src/screens/HomeScreen.tsx:148-164 | from a day in the period, navigation moves by at most one day, stays in the period, and never moves into the future |
| HomeScreen.NextThenPreviousReturns | src/screens/HomeScreen.tsx:148-171 | when `canGoNext` holds, going forward then back returns to the start |
| HomeScreen.FinalPrice | src/screens/HomeScreen.tsx:130 | 0 when not eaten; else the given price, or the meal's default when none is given |
| HomeScreen.CardEventPriceIsStored | src/screens/HomeScreen.tsx:125-138 | the price of a card's event is stored unchanged |
| HomeScreen.ZeroPriceDiffersFromNotification | src/screens/HomeScreen.tsx:130 | an explicit price 0 is stored as 0 here, while the notification "ate" answer replaces it by the meal's price |
| HomeScreen.DefaultPeriodContainsToday | src/screens/HomeScreen.tsx:50-70 | the first-launch period runs from a real date before today to a real date after it |
| HomeScreen.HomeScreen.constructor | src/screens/HomeScreen.tsx:37-40 | today, no period, nothing loaded, loading |
| HomeScreen.HomeScreen.Init | src/screens/HomeScreen.tsx:43-81 | opens the store; keeps the active period, or creates the default period around today; the screen then shows the store's active period |
| HomeScreen.HomeScreen.LoadDayData | src/screens/HomeScreen.tsx:84-94 | without a period id nothing changes; otherwise the day is `getDayMeals` of the shown date |
| HomeScreen.HomeScreen.AppResume | src/screens/HomeScreen.tsx:101-122 | the date becomes today, and the day is reloaded only when it already was today and a period id exists; otherwise the loaded day is kept |
| HomeScreen.HomeScreen.HandleMealToggle | src/screens/HomeScreen.tsx:125-145 | without a period id, or when the save fails, nothing changes; otherwise upserts the final price and reloads the day; the id counter advances exactly by the rows added |
| HomeScreen.HomeScreen.GoToPreviousDay | src/screens/HomeScreen.tsx:148-155 | moves to the previous day only when it is in the period |
| HomeScreen.HomeScreen.GoToNextDay | src/screens/HomeScreen.tsx:157-164 | moves to the next day only when it is not in the future and is in the period |
| HomeScreen.TapThenReloadFlipsCard | src/screens/HomeScreen.tsx:125-145 | after a tap on an enabled card and the reload, the meal has an entry and the card's status is flipped |
| ReportScreen.DefaultRangeContainsToday | src/screens/ReportScreen.tsx:27-48 | the default range runs from a 16th to the 15th of the next month, holds today, and wraps the year in December and January |
| ReportScreen.ReportRowsStep | src/screens/ReportScreen.tsx:105-127 | a day in the range contributes its row, followed by the rows from the next day |
| ReportScreen.DayRow | src/screens/ReportScreen.tsx:106-124 | the loop body's row for one day equals the specified `DayReportOf` |
| ReportScreen.BuildReport | src/screens/ReportScreen.tsx:101-130 | the loop produces exactly `ReportRows` from start to end, and the grand total is the sum of the row totals |
| ReportScreen.ReportRowsStart | src/screens/ReportScreen.tsx:105 | no rows exactly when start is after end; otherwise the first row is the start date |
| ReportScreen.ReportRowsWithinRange | src/screens/ReportScreen.tsx:101-127 | every row's date is a real day within the range |
| ReportScreen.ReportRowsDayByDay | src/screens/ReportScreen.tsx:126 | each row's date is the day after the previous row's |
| ReportScreen.ReportRowsCoverRange | src/screens/ReportScreen.tsx:101-127 | every real day of the range has a row |
| ReportScreen.DayReportMarks | src/screens/ReportScreen.tsx:109-124 | a meal's mark is absent exactly when no entry has that day and meal, and otherwise is the `ate` flag of such an entry |
| ReportScreen.DayTotalIsSumOfEaten | src/screens/ReportScreen.tsx:113-116 | with one entry per meal, a row's total is the sum of the day's eaten prices |
| ReportScreen.RowTotalsSumEntries | src/screens/ReportScreen.tsx:130 | the row totals from a day on sum to the eaten prices of all entries dated from that day on |
| ReportScreen.ReportTotalMatchesPeriodTotal | src/screens/ReportScreen.tsx:94-134 | the report's grand total equals `calculateTotalForPeriod` over the same range |
| ReportScreen.StatusRenderingsDistinct | src/screens/ReportScreen.tsx:152-164 | the export symbol, the intended export cell class and the on-screen icon each tell eaten, not eaten and unmarked apart |
| ReportScreen.StoredAte | src/services/database.ts:142 | `ate` is stored as 1 exactly when eaten and as 0 otherwise |
| ReportScreen.ReadBackRendersMark | src/screens/ReportScreen.tsx:109-124 | a mark read back from the table is null exactly when unmarked and truthy exactly when eaten, so the symbol, the icon and the price added to the total render the mark |
| ReportScreen.StoredMarkHasNoClass | src/screens/ReportScreen.tsx:162-164 | as written, the cell class is empty for every meal read back from the table, while the intended class of a marked meal is not |
| ReportScreen.EatenBreakfastLosesClass | src/screens/ReportScreen.tsx:162 | an eaten breakfast shows "✓" but gets no "yes" class |
| ReportScreen.ReportScreen.constructor | src/screens/ReportScreen.tsx:64-71 | no period, empty range and rows, total 0, loading, picker closed on the start date |
| ReportScreen.ReportScreen.Init | src/screens/ReportScreen.tsx:74-91 | opens the store, takes the active period, and sets the default range around today |
| ReportScreen.ReportScreen.LoadData | src/screens/ReportScreen.tsx:94-134 | without a period id or either end nothing changes; otherwise the rows are `ReportRows` over the range's entries and the total is their sum |
| ReportScreen.ReportScreen.OpenPicker | src/screens/ReportScreen.tsx:309-327 | selects the end to edit and opens the picker |
| ReportScreen.ReportScreen.HandleDateSelect | src/screens/ReportScreen.tsx:141-148 | sets the end being edited, keeps the other, and closes the picker |

## Left out

- SQLite itself is not modelled: SQL text, REAL columns (prices are integers here), foreign keys (never checked, since SQLite leaves them off by default) and row order other than insertion order. Each statement is a function over the rows.
- Asynchrony, React effects and re-renders are not modelled. The automatic reload after a date change is the separate `LoadDayData`, and `AppResume` changes the date without reloading.
- Clocks are parameters. `toISOString` turns a local date into a UTC date, and that shift is not modelled: dates are calendar triples.
- Expo notification calls (delivery, permissions, platform identifiers) are not modelled; identifiers are a counter. Titles, bodies and button titles are not modelled.
- HTML and PDF export, sharing, display formatting (`formatDisplayDate`) and styles are not modelled beyond the status symbols, cell classes and icons.
- Error alerts and `console.error` are not modelled. Every write before initialisation fails with `NotInitialized`; the screens then skip what follows, as their `catch` blocks do.
- `DateNavigator.tsx`, `SettingsScreen.tsx`, `AppNavigator.tsx`, `App.tsx` and the icon script are not part of this model.
- Notifications.HandleNotificationResponse: an "ate" answer for dinner without a payload price would store the `MEAL_PRICES.dinner` object in the source; the model stores dinner's default 7. No notification the app schedules takes that path.
- ReportScreen.BuildReport: it requires a real calendar start date, as the picker and the default range produce. A malformed date string is not represented.
- ReportScreen.ReportTotalMatchesPeriodTotal: it requires every stored date to be a real calendar day.
- Notifications.NotificationCenter.ScheduleReminderNotification: the daily trigger has no weekday, so the model keeps no weekday either. The reminder for a 00:0x meal fires at 23:5x of the same daily cycle, as in the source.

## Findings

| source | as written | input that shows it | evidently intended | confidence | as-written member | corrected member |
|---|---|---|---|---|---|---|
| src/screens/ReportScreen.tsx:162-164 | the exported cell class compares the mark with `=== true` and `=== false`, but the mark read back from SQLite is the integer 1 or 0, so every cell gets the class '' | an eaten breakfast (`ate` stored as 1) shows "✓" with no "yes" class | class "yes" for an eaten meal, "no" for a meal not eaten, '' for an unmarked one | not executed | ReportScreen.StoredMarkHasNoClass | ReportScreen.StatusRenderingsDistinct |
