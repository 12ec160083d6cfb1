/**
 * The report: a default date range around today, one row per calendar day
 * of the chosen range with a three-state mark per meal and the day's total,
 * the grand total, and how the marks are rendered.
 *
 * `ReportRows` specifies the rows; the `while` loop of `loadData` is the
 * method `BuildReport`, proved to produce them. The screen's state (period,
 * range, picker, rows and total) is the class `ReportScreen`. The range's
 * ends are calendar days (the picker and the default range only produce
 * real dates); "today" is a parameter.
 */
module ReportScreen {
  import opened Wrappers
  import opened Calendar
  import opened Types
  import opened Seqs
  import opened Database
  import Sorting

  /** One row: a meal's mark is `None` when the meal has no entry that day,
   *  otherwise the entry's `ate` flag. */
  datatype DayReport = DayReport(
    date: Date, breakfast: Option<bool>, lunch: Option<bool>, dinner: Option<bool>, total: int)

  /** Which end of the range the date picker edits. */
  datatype Endpoint = Start | End

  /** `getDefaultDateRange`: from the 16th to the 15th, the 16th of this month
   *  when today is the 16th or later, else of the previous month. */
  function DefaultDateRange(today: Date): (r: (Date, Date))
    requires ValidDate(today)
  {
    if today.day >= 16 then
      var (y, m) := ShiftMonth(today.year, today.month, 1);
      (Date(today.year, today.month, 16), Date(y, m, 15))
    else
      var (y, m) := ShiftMonth(today.year, today.month, -1);
      (Date(y, m, 16), Date(today.year, today.month, 15))
  }

  /** The default range holds today, runs from a 16th to the 15th of the
   *  following month, and wraps the year in December and January. */
  lemma DefaultRangeContainsToday(today: Date)
    requires ValidDate(today)
    ensures var (s, e) := DefaultDateRange(today);
      ValidDate(s) && ValidDate(e) && DateLe(s, today) && DateLe(today, e) &&
      s.day == 16 && e.day == 15 && e.year * 12 + e.month == s.year * 12 + s.month + 1
    ensures today.day >= 16 ==> DefaultDateRange(today).0 == Date(today.year, today.month, 16)
    ensures today.day < 16 ==> DefaultDateRange(today).1 == Date(today.year, today.month, 15)
    ensures today.month == 12 && today.day >= 16 ==> DefaultDateRange(today).1 == Date(today.year + 1, 1, 15)
    ensures today.month == 1 && today.day < 16 ==> DefaultDateRange(today).0 == Date(today.year - 1, 12, 16)
  {
    var (s, e) := DefaultDateRange(today);
    if today.day >= 16 {
      if today.month == 12 {
        assert e.year == today.year + 1 && e.month == 1;
      } else {
        assert e.year == today.year && e.month == today.month + 1;
      }
    } else {
      if today.month == 1 {
        assert s.year == today.year - 1 && s.month == 12;
      } else {
        assert s.year == today.year && s.month == today.month - 1;
      }
    }
  }

  function DatedOn(d: Date): MealEntry -> bool {
    (e: MealEntry) => e.date == d
  }

  /** A meal's mark in a row. */
  function Mark(slot: Option<MealEntry>): Option<bool> {
    if slot.Some? then Some(slot.value.ate) else None
  }

  /** The row for one day: the day's entries, the first of each meal kind,
   *  and the prices of those marked eaten. */
  function DayReportOf(entries: seq<MealEntry>, d: Date): DayReport {
    var dayEntries := Filter(entries, DatedOn(d));
    var b := Find(dayEntries, MealIs(Breakfast));
    var l := Find(dayEntries, MealIs(Lunch));
    var n := Find(dayEntries, MealIs(Dinner));
    DayReport(d, Mark(b), Mark(l), Mark(n), SlotValue(b) + SlotValue(l) + SlotValue(n))
  }

  /** The rows from `cur` to `end`, one per day. */
  function ReportRows(entries: seq<MealEntry>, cur: Date, end: Date): seq<DayReport>
    requires ValidDate(cur)
    decreases end.year - cur.year, 13 - cur.month, 32 - cur.day
  {
    if !DateLe(cur, end) then []
    else
      NextIsSuccessor(cur, cur);
      [DayReportOf(entries, cur)] + ReportRows(entries, Next(cur), end)
  }

  /** One step of the rows: today's row, then the rows from tomorrow. */
  lemma ReportRowsStep(entries: seq<MealEntry>, cur: Date, end: Date)
    requires ValidDate(cur) && DateLe(cur, end)
    ensures ValidDate(Next(cur)) && DateLt(cur, Next(cur))
    ensures ReportRows(entries, cur, end) == [DayReportOf(entries, cur)] + ReportRows(entries, Next(cur), end)
  {
    NextIsSuccessor(cur, cur);
  }

  function DayTotal(r: DayReport): int {
    r.total
  }

  /** The body of `loadData`'s loop for one day: that day's entries, the
   *  three meals among them, and the day's total of eaten prices. */
  method DayRow(entries: seq<MealEntry>, d: Date) returns (row: DayReport)
    ensures row == DayReportOf(entries, d)
  {
    var dayEntries := Filter(entries, DatedOn(d));
    var breakfast := Find(dayEntries, MealIs(Breakfast));
    var lunch := Find(dayEntries, MealIs(Lunch));
    var dinner := Find(dayEntries, MealIs(Dinner));
    var total := SlotValue(breakfast) + SlotValue(lunch) + SlotValue(dinner);
    row := DayReport(d, Mark(breakfast), Mark(lunch), Mark(dinner), total);
  }

  /** `loadData`'s loop: a row per day from `start` while the day is not
   *  after `end`, then the sum of the row totals. */
  method BuildReport(entries: seq<MealEntry>, start: Date, end: Date) returns (days: seq<DayReport>, totalSum: int)
    requires ValidDate(start)
    ensures days == ReportRows(entries, start, end)
    ensures totalSum == Sum(days, DayTotal)
  {
    days := [];
    var current := start;
    ghost var target := ReportRows(entries, start, end);
    while DateLe(current, end)
      invariant ValidDate(current)
      invariant days + ReportRows(entries, current, end) == target
      decreases end.year - current.year, 13 - current.month, 32 - current.day
    {
      var row := DayRow(entries, current);
      ReportRowsStep(entries, current, end);
      assert days + [row] + ReportRows(entries, Next(current), end) == days + ([row] + ReportRows(entries, Next(current), end));
      days := days + [row];
      current := Next(current);
    }
    assert ReportRows(entries, current, end) == [];
    assert days + [] == days;
    totalSum := Sum(days, DayTotal);
  }

  /** The rows start at `cur`, and there are none when the range is empty. */
  lemma ReportRowsStart(entries: seq<MealEntry>, cur: Date, end: Date)
    requires ValidDate(cur)
    ensures var rows := ReportRows(entries, cur, end);
      (|rows| == 0 <==> !DateLe(cur, end)) &&
      (|rows| > 0 ==> rows[0].date == cur)
  {
    if DateLe(cur, end) {
      ReportRowsStep(entries, cur, end);
    }
  }

  /** Every row's day is a real day from `cur` to `end`. */
  lemma {:induction false} ReportRowsWithinRange(entries: seq<MealEntry>, cur: Date, end: Date)
    requires ValidDate(cur)
    ensures var rows := ReportRows(entries, cur, end);
      forall i :: 0 <= i < |rows| ==> ValidDate(rows[i].date) && DateLe(cur, rows[i].date) && DateLe(rows[i].date, end)
    decreases end.year - cur.year, 13 - cur.month, 32 - cur.day
  {
    if DateLe(cur, end) {
      ReportRowsStep(entries, cur, end);
      var rest := ReportRows(entries, Next(cur), end);
      ReportRowsWithinRange(entries, Next(cur), end);
      var rows := ReportRows(entries, cur, end);
      forall i | 0 <= i < |rows|
        ensures ValidDate(rows[i].date) && DateLe(cur, rows[i].date) && DateLe(rows[i].date, end)
      {
        if i > 0 {
          assert rows[i] == rest[i - 1];
          DateLeIsTotalOrder(cur, Next(cur), rows[i].date);
        }
      }
    }
  }

  /** Each row's day is the day after the previous row's. */
  lemma {:induction false} ReportRowsDayByDay(entries: seq<MealEntry>, cur: Date, end: Date)
    requires ValidDate(cur)
    ensures var rows := ReportRows(entries, cur, end);
      forall i :: 0 <= i < |rows| - 1 ==> rows[i + 1].date == Next(rows[i].date)
    decreases end.year - cur.year, 13 - cur.month, 32 - cur.day
  {
    if DateLe(cur, end) {
      ReportRowsStep(entries, cur, end);
      var rest := ReportRows(entries, Next(cur), end);
      ReportRowsDayByDay(entries, Next(cur), end);
      ReportRowsStart(entries, Next(cur), end);
      var rows := ReportRows(entries, cur, end);
      forall i | 0 <= i < |rows| - 1 ensures rows[i + 1].date == Next(rows[i].date) {
        assert rows[i + 1] == rest[i];
        if i > 0 {
          assert rows[i] == rest[i - 1];
        }
      }
    }
  }

  /** Every real day of the range has a row. */
  lemma {:induction false} ReportRowsCoverRange(entries: seq<MealEntry>, cur: Date, end: Date, d: Date)
    requires ValidDate(cur) && ValidDate(d)
    requires DateLe(cur, d) && DateLe(d, end)
    ensures exists i :: 0 <= i < |ReportRows(entries, cur, end)| && ReportRows(entries, cur, end)[i].date == d
    decreases end.year - cur.year, 13 - cur.month, 32 - cur.day
  {
    DateLeIsTotalOrder(cur, d, end);
    var rows := ReportRows(entries, cur, end);
    if d == cur {
      assert rows[0].date == d;
    } else {
      NextIsSuccessor(cur, d);
      ReportRowsCoverRange(entries, Next(cur), end, d);
      var rest := ReportRows(entries, Next(cur), end);
      var i :| 0 <= i < |rest| && rest[i].date == d;
      assert rows[i + 1] == rest[i];
    }
  }

  /** A meal's mark is `None` exactly when the entries hold no row for that
   *  day and meal, and otherwise the `ate` flag of such a row. */
  lemma DayReportMarks(entries: seq<MealEntry>, d: Date, m: MealType)
    ensures var r := DayReportOf(entries, d);
      var mark := match m case Breakfast => r.breakfast case Lunch => r.lunch case Dinner => r.dinner;
      (mark.None? <==> forall e :: e in entries ==> !(e.date == d && e.mealType == m)) &&
      (mark.Some? ==> exists e :: e in entries && e.date == d && e.mealType == m && e.ate == mark.value)
  {
    var dayEntries := Filter(entries, DatedOn(d));
    assert forall e :: e in dayEntries && MealIs(m)(e) <==> e in entries && e.date == d && e.mealType == m;
  }

  /** A row's total is the sum of the prices of the day's entries marked
   *  eaten, when the day holds at most one entry per meal kind: unmarked
   *  and uneaten meals add nothing. */
  lemma DayTotalIsSumOfEaten(entries: seq<MealEntry>, d: Date)
    requires KeysDistinct(entries, EntryKey)
    requires forall e :: e in entries ==> e.periodId == entries[0].periodId
    ensures DayReportOf(entries, d).total == Sum(Filter(entries, DatedOn(d)), AteValue)
  {
    var f := Filter(entries, DatedOn(d));
    FilterKeepsKeysDistinct(entries, DatedOn(d), EntryKey);
    forall i, j | 0 <= i < j < |f| ensures f[i].mealType != f[j].mealType {
      assert f[i] in f && f[j] in f;
      assert EntryKey(f[i]) != EntryKey(f[j]);
    }
    SumBySlots(f);
  }

  /** What entries dated `cur` or later add to a total. */
  function AteFrom(cur: Date): MealEntry -> int {
    (e: MealEntry) => if DateLe(cur, e.date) then AteValue(e) else 0
  }

  function AteOn(d: Date): MealEntry -> int {
    (e: MealEntry) => if e.date == d then AteValue(e) else 0
  }

  /** Summed over the rows from `cur`, the day totals count every eaten
   *  entry dated from `cur` on, when each entry's date is a real day no
   *  later than `end` and each day holds at most one entry per meal kind. */
  lemma {:induction false} RowTotalsSumEntries(entries: seq<MealEntry>, cur: Date, end: Date)
    requires ValidDate(cur)
    requires KeysDistinct(entries, EntryKey)
    requires forall e :: e in entries ==> e.periodId == entries[0].periodId
    requires forall e :: e in entries ==> ValidDate(e.date) && DateLe(e.date, end)
    ensures Sum(ReportRows(entries, cur, end), DayTotal) == Sum(entries, AteFrom(cur))
    decreases end.year - cur.year, 13 - cur.month, 32 - cur.day
  {
    if !DateLe(cur, end) {
      forall e | e in entries ensures AteFrom(cur)(e) == 0 {
        DateLeIsTotalOrder(cur, e.date, end);
      }
      SumZero(entries, AteFrom(cur));
    } else {
      NextIsSuccessor(cur, cur);
      RowTotalsSumEntries(entries, Next(cur), end);
      var rows := ReportRows(entries, cur, end);
      assert rows[1..] == ReportRows(entries, Next(cur), end);
      DayTotalIsSumOfEaten(entries, cur);
      SumFilter(entries, DatedOn(cur), AteValue, AteOn(cur));
      forall e | e in entries ensures AteFrom(cur)(e) == AteOn(cur)(e) + AteFrom(Next(cur))(e) {
        NextIsSuccessor(cur, e.date);
        DateLeIsTotalOrder(cur, Next(cur), e.date);
      }
      SumSplit(entries, AteFrom(cur), AteOn(cur), AteFrom(Next(cur)));
    }
  }

  /** The report's grand total for a period equals the store's
   *  `calculateTotalForPeriod` over the same range, when every stored date
   *  is a real day. */
  lemma ReportTotalMatchesPeriodTotal(store: Store, periodId: int, start: Date, end: Date)
    requires store.Valid() && store.ready && ValidDate(start)
    requires forall e :: e in store.entries ==> ValidDate(e.date)
    ensures Sum(ReportRows(store.GetEntriesBetweenDates(periodId, start, end), start, end), DayTotal)
         == store.CalculateTotalForPeriod(periodId, start, end)
  {
    var f := Filter(store.entries, InRange(periodId, start, end));
    var entries := store.GetEntriesBetweenDates(periodId, start, end);
    assert entries == Sorting.SortBy(f, EntryOrderKey);
    FilterKeepsKeysDistinct(store.entries, InRange(periodId, start, end), EntryKey);
    Sorting.SortByKeepsKeysDistinct(f, EntryOrderKey, EntryKey);
    if |entries| > 0 {
      assert entries[0] in entries;
    }
    RowTotalsSumEntries(entries, start, end);
    SumSame(entries, AteFrom(start), AteValue);
    Sorting.SortBySum(f, EntryOrderKey, AteValue);
  }

  /** `getStatusSymbol` in the exported table. */
  function StatusSymbol(s: Option<bool>): string {
    if s.None? then "—" else if s.value then "✓" else "✗"
  }

  /** The cell class in the exported table. */
  function StatusClass(s: Option<bool>): string {
    if s == Some(true) then "yes" else if s == Some(false) then "no" else ""
  }

  /** `getStatusIcon` in the on-screen list. */
  function StatusIcon(s: Option<bool>): string {
    if s.None? then "—" else if s.value then "✅" else "❌"
  }

  /** Each rendering tells the three marks apart, so "not eaten" never
   *  reads as "not marked". */
  lemma StatusRenderingsDistinct(a: Option<bool>, b: Option<bool>)
    ensures StatusSymbol(a) == StatusSymbol(b) ==> a == b
    ensures StatusClass(a) == StatusClass(b) ==> a == b
    ensures StatusIcon(a) == StatusIcon(b) ==> a == b
  {
    assert "✓"[0] != "✗"[0] && "—"[0] != "✓"[0] && "—"[0] != "✗"[0];
    assert "✅"[0] != "❌"[0] && "—"[0] != "✅"[0] && "—"[0] != "❌"[0];
    assert "yes"[0] != "no"[0] && |""| == 0;
  }

  /** A mark as the screen receives it from a row of `meal_entries`.
   *  SQLite has no boolean column: `ate` is written as 1 or 0 and
   *  `SELECT *` hands that integer back, not a boolean; a meal without
   *  a row gives `null`. */
  datatype Cell = Null | Flag(b: bool) | Number(n: int)

  /** The integer an `ate` flag is stored as. */
  function StoredAte(ate: bool): (n: int)
    ensures n == 0 || n == 1
    ensures n == 1 <==> ate
  {
    if ate then 1 else 0
  }

  /** The value a report row holds for a meal after the round trip
   *  through the table. */
  function ReadBack(slot: Option<MealEntry>): Cell {
    if slot.Some? then Number(StoredAte(slot.value.ate)) else Null
  }

  /** JavaScript truthiness of a cell. */
  predicate Truthy(c: Cell) {
    match c
    case Null => false
    case Flag(b) => b
    case Number(n) => n != 0
  }

  /** `getStatusSymbol` and `getStatusIcon` applied to a read-back cell:
   *  a test against `null`, then a truth test. */
  function SymbolOfCell(c: Cell): string {
    if c.Null? then "—" else if Truthy(c) then "✓" else "✗"
  }

  function IconOfCell(c: Cell): string {
    if c.Null? then "—" else if Truthy(c) then "✅" else "❌"
  }

  /** The cell class as written: strict equality with `true`, then with
   *  `false`. */
  function StatusClassAsWritten(c: Cell): string {
    if c == Flag(true) then "yes" else if c == Flag(false) then "no" else ""
  }

  /** The symbol, the icon and the price added to the total all use
   *  truth tests, so on read-back values they render the mark itself. */
  lemma ReadBackRendersMark(slot: Option<MealEntry>)
    ensures ReadBack(slot).Null? <==> Mark(slot).None?
    ensures Mark(slot).Some? ==> (Truthy(ReadBack(slot)) <==> Mark(slot).value)
    ensures SymbolOfCell(ReadBack(slot)) == StatusSymbol(Mark(slot))
    ensures IconOfCell(ReadBack(slot)) == StatusIcon(Mark(slot))
  {
  }

  /** The class, as written, is empty for every stored meal, eaten or
   *  not, while the intended class sets eaten and not eaten apart. */
  lemma StoredMarkHasNoClass(slot: Option<MealEntry>)
    ensures StatusClassAsWritten(ReadBack(slot)) == ""
    ensures slot.Some? ==> StatusClass(Mark(slot)) != ""
  {
  }

  /** An eaten breakfast: its cell shows "✓" but gets no "yes" class. */
  lemma EatenBreakfastLosesClass()
    ensures var e := MealEntry(1, 1, Date(2024, 1, 16), Breakfast, true, 7, 0);
      SymbolOfCell(ReadBack(Some(e))) == "✓" &&
      StatusClassAsWritten(ReadBack(Some(e))) == "" &&
      StatusClass(Mark(Some(e))) == "yes"
  {
  }

  class ReportScreen {
    var period: Option<Period>
    /** The range's ends; `None` is the empty string before `init`. */
    var startDate: Option<Date>
    var endDate: Option<Date>
    var dayReports: seq<DayReport>
    var totalSum: int
    var isLoading: bool
    var showCalendar: bool
    var selectingDate: Endpoint

    ghost predicate Valid()
      reads this
    {
      (startDate.Some? ==> ValidDate(startDate.value)) && (endDate.Some? ==> ValidDate(endDate.value))
    }

    constructor ()
      ensures Valid()
      ensures period.None? && startDate.None? && endDate.None? && dayReports == [] && totalSum == 0
      ensures isLoading && !showCalendar && selectingDate == Start
    {
      period, startDate, endDate := None, None, None;
      dayReports, totalSum := [], 0;
      isLoading, showCalendar, selectingDate := true, false, Start;
    }

    /** `init`: opens the store, takes the active period, sets the default range. */
    method Init(store: Store, today: Date)
      requires store.Valid() && ValidDate(today)
      modifies this`period, this`startDate, this`endDate, this`isLoading, store`ready
      ensures Valid() && store.Valid() && store.ready && !isLoading
      ensures period == store.GetActivePeriod()
      ensures startDate == Some(DefaultDateRange(today).0) && endDate == Some(DefaultDateRange(today).1)
    {
      store.InitDatabase();
      period := store.GetActivePeriod();
      DefaultRangeContainsToday(today);
      var range := DefaultDateRange(today);
      startDate := Some(range.0);
      endDate := Some(range.1);
      isLoading := false;
    }

    /** `loadData`: nothing without a period id or either end; otherwise
     *  the rows and the grand total for the range. */
    method LoadData(store: Store)
      requires Valid()
      modifies this`dayReports, this`totalSum
      ensures Valid()
      ensures period.None? || period.value.id == 0 || startDate.None? || endDate.None? ==>
        dayReports == old(dayReports) && totalSum == old(totalSum)
      ensures period.Some? && period.value.id != 0 && startDate.Some? && endDate.Some? ==>
        dayReports == ReportRows(store.GetEntriesBetweenDates(period.value.id, startDate.value, endDate.value),
                                 startDate.value, endDate.value) &&
        totalSum == Sum(dayReports, DayTotal)
    {
      if period.None? || period.value.id == 0 || startDate.None? || endDate.None? {
        return;
      }
      var entries := store.GetEntriesBetweenDates(period.value.id, startDate.value, endDate.value);
      var days, total := BuildReport(entries, startDate.value, endDate.value);
      dayReports := days;
      totalSum := total;
    }

    /** The two range buttons: choose the end to edit and open the picker. */
    method OpenPicker(which: Endpoint)
      modifies this`selectingDate, this`showCalendar
      ensures selectingDate == which && showCalendar
    {
      selectingDate := which;
      showCalendar := true;
    }

    /** `handleDateSelect`: sets the end being edited and closes the picker. */
    method HandleDateSelect(date: Date)
      requires Valid() && ValidDate(date)
      modifies this`startDate, this`endDate, this`showCalendar
      ensures Valid() && !showCalendar
      ensures selectingDate == Start ==> startDate == Some(date) && endDate == old(endDate)
      ensures selectingDate == End ==> endDate == Some(date) && startDate == old(startDate)
    {
      if selectingDate == Start {
        startDate := Some(date);
      } else {
        endDate := Some(date);
      }
      showCalendar := false;
    }
  }
}
