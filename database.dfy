/**
 * The local data layer: four tables (periods, schedule, meal_entries,
 * disabled_days) behind a handle that is null until the database is opened.
 *
 * The tables are sequences of rows in insertion order, held by the class
 * `Store`; `ready` stands for the module-level handle being non-null. Each
 * SQL statement the source runs is given by a function over the rows (the
 * "spec functions" below), and the lemmas state what those statements
 * guarantee: the UNIQUE constraints, the upsert, the idempotent enable and
 * disable, the replace-by-delete-then-insert, and the totals.
 */
module Database {
  import opened Wrappers
  import opened Calendar
  import opened Types
  import opened Seqs
  import Sorting

  /** The error every writing call throws before the database is opened. */
  datatype StoreError = NotInitialized

  // ---------------------------------------------------------------- periods

  predicate IsActive(p: Period) {
    p.isActive
  }

  function PeriodId(p: Period): int {
    p.id
  }

  /** At most one period carries the active flag. */
  ghost predicate AtMostOneActive(ps: seq<Period>) {
    forall i, j :: 0 <= i < |ps| && 0 <= j < |ps| && ps[i].isActive && ps[j].isActive ==> i == j
  }

  /** `name || null`: a missing or empty name is stored as NULL. */
  function StoredName(name: Option<string>): (r: Option<string>)
    ensures r.Some? <==> name.Some? && name.value != ""
    ensures r.Some? ==> r.value == name.value
  {
    if name.Some? && name.value != "" then name else None
  }

  /** `UPDATE periods SET is_active = 0 WHERE is_active = 1`. */
  function Deactivated(ps: seq<Period>): (r: seq<Period>)
    ensures |r| == |ps|
    ensures forall i :: 0 <= i < |ps| ==> r[i] == ps[i].(isActive := false)
  {
    seq(|ps|, i requires 0 <= i < |ps| => ps[i].(isActive := false))
  }

  /** The rows after `createPeriod`: every old row inactive, then the new row. */
  function WithNewPeriod(ps: seq<Period>, p: Period): seq<Period> {
    Deactivated(ps) + [p]
  }

  /** After `createPeriod` at most one period is active, and it is the new
   *  row exactly when that row was created active. */
  lemma CreatePeriodKeepsOneActive(ps: seq<Period>, p: Period)
    ensures AtMostOneActive(WithNewPeriod(ps, p))
    ensures Find(WithNewPeriod(ps, p), IsActive) == if p.isActive then Some(p) else None
    ensures forall i :: 0 <= i < |ps| ==> !WithNewPeriod(ps, p)[i].isActive
  {
    var r := WithNewPeriod(ps, p);
    assert r[|ps|] == p;
    if p.isActive {
      assert r[|ps|] in r;
    }
  }

  /** Deactivating keeps every row's id. */
  lemma DeactivatedKeepsIds(ps: seq<Period>, next: int)
    requires IdsBelow(ps, PeriodId, next)
    ensures IdsBelow(Deactivated(ps), PeriodId, next)
  {
    var r := Deactivated(ps);
    assert forall i :: 0 <= i < |r| ==> PeriodId(r[i]) == PeriodId(ps[i]);
    forall q | q in r ensures 1 <= q.id < next {
      var i :| 0 <= i < |r| && r[i] == q;
      assert ps[i] in ps;
    }
  }

  /** The fields `updatePeriod` may set; `None` is a field left undefined. */
  datatype PeriodPatch = PeriodPatch(
    name: Option<string>, startDate: Option<Date>, endDate: Option<Date>, isActive: Option<bool>)

  predicate PatchIsEmpty(patch: PeriodPatch) {
    patch.name.None? && patch.startDate.None? && patch.endDate.None? && patch.isActive.None?
  }

  /** The `SET` list: each supplied field overwrites the column. */
  function ApplyPatch(p: Period, patch: PeriodPatch): Period {
    p.(name := if patch.name.Some? then StoredName(patch.name) else p.name,
       startDate := patch.startDate.GetOr(p.startDate),
       endDate := patch.endDate.GetOr(p.endDate),
       isActive := patch.isActive.GetOr(p.isActive))
  }

  /** `UPDATE periods SET .. WHERE id = ?`, issued only when a field is supplied. */
  function Patched(ps: seq<Period>, id: int, patch: PeriodPatch): (r: seq<Period>)
    ensures |r| == |ps|
    ensures forall i :: 0 <= i < |ps| ==>
      r[i] == if ps[i].id == id && !PatchIsEmpty(patch) then ApplyPatch(ps[i], patch) else ps[i]
  {
    if |ps| == 0 then []
    else
      var head := if ps[0].id == id && !PatchIsEmpty(patch) then ApplyPatch(ps[0], patch) else ps[0];
      [head] + Patched(ps[1..], id, patch)
  }

  /** `updatePeriod` writes nothing when no field is supplied or no row has the id. */
  lemma UpdatePeriodNoop(ps: seq<Period>, id: int, patch: PeriodPatch)
    requires PatchIsEmpty(patch) || forall p :: p in ps ==> p.id != id
    ensures Patched(ps, id, patch) == ps
  {
    assert forall i :: 0 <= i < |ps| ==> ps[i] in ps;
  }

  /** `updatePeriod` changes only the supplied fields of the row with the id. */
  lemma UpdatePeriodChangesOnlyTarget(ps: seq<Period>, id: int, patch: PeriodPatch, i: nat)
    requires i < |ps|
    ensures ps[i].id != id ==> Patched(ps, id, patch)[i] == ps[i]
    ensures var q := Patched(ps, id, patch)[i];
      q.id == ps[i].id &&
      (patch.name.None? ==> q.name == ps[i].name) &&
      (patch.name.Some? && ps[i].id == id ==> q.name == StoredName(patch.name)) &&
      (patch.startDate.None? ==> q.startDate == ps[i].startDate) &&
      (patch.startDate.Some? && ps[i].id == id ==> q.startDate == patch.startDate.value) &&
      (patch.endDate.None? ==> q.endDate == ps[i].endDate) &&
      (patch.endDate.Some? && ps[i].id == id ==> q.endDate == patch.endDate.value) &&
      (patch.isActive.None? ==> q.isActive == ps[i].isActive) &&
      (patch.isActive.Some? && ps[i].id == id ==> q.isActive == patch.isActive.value)
  {
  }

  /** An update that does not set `is_active` to true keeps at most one
   *  period active. */
  lemma UpdatePeriodKeepsOneActiveUnlessActivating(ps: seq<Period>, id: int, patch: PeriodPatch)
    requires AtMostOneActive(ps)
    requires patch.isActive != Some(true)
    ensures AtMostOneActive(Patched(ps, id, patch))
  {
  }

  /** Setting `is_active` to true on one period while another is active
   *  leaves two active periods: `updatePeriod` does not deactivate the rest
   *  as `createPeriod` does. */
  lemma UpdatePeriodCanBreakOneActive(ps: seq<Period>, id: int, i: nat, j: nat)
    requires i < |ps| && j < |ps| && i != j
    requires ps[i].isActive && ps[i].id != id && ps[j].id == id
    ensures !AtMostOneActive(Patched(ps, id, PeriodPatch(None, None, None, Some(true))))
  {
    var r := Patched(ps, id, PeriodPatch(None, None, None, Some(true)));
    assert r[i].isActive && r[j].isActive;
  }

  /** Two valid period rows, one active, with distinct ids: the smallest
   *  table on which the lemma above applies. */
  lemma UpdatePeriodBreaksOneActiveExample()
    ensures var d := Date(2024, 1, 1);
      var ps := [Period(1, None, d, d, true), Period(2, None, d, d, false)];
      AtMostOneActive(ps) &&
      !AtMostOneActive(Patched(ps, 2, PeriodPatch(None, None, None, Some(true))))
  {
    var d := Date(2024, 1, 1);
    var ps := [Period(1, None, d, d, true), Period(2, None, d, d, false)];
    UpdatePeriodCanBreakOneActive(ps, 2, 0, 1);
  }

  // ------------------------------------------------------------ meal entries

  function EntryId(e: MealEntry): int {
    e.id
  }

  /** The UNIQUE(period_id, date, meal_type) columns. */
  function EntryKey(e: MealEntry): (int, Date, MealType) {
    (e.periodId, e.date, e.mealType)
  }

  function HasEntryKey(periodId: int, date: Date, meal: MealType): MealEntry -> bool {
    (e: MealEntry) => e.periodId == periodId && e.date == date && e.mealType == meal
  }

  function LacksEntryKey(periodId: int, date: Date, meal: MealType): MealEntry -> bool {
    (e: MealEntry) => !(e.periodId == periodId && e.date == date && e.mealType == meal)
  }

  /** `INSERT .. ON CONFLICT(period_id, date, meal_type) DO UPDATE SET ate, price`. */
  function Upserted(es: seq<MealEntry>, periodId: int, date: Date, meal: MealType,
                    ate: bool, price: int, newId: int, now: int): seq<MealEntry>
  {
    match FindIndex(es, HasEntryKey(periodId, date, meal))
    case Some(i) => es[i := es[i].(ate := ate, price := price)]
    case None => es + [MealEntry(newId, periodId, date, meal, ate, price, now)]
  }

  /** After the upsert exactly one row has the key. It carries the new `ate`
   *  and `price`, and keeps the `id` and `created_at` of the row it
   *  replaced (a new row gets the fresh id and the current time). Every
   *  other row is unchanged, and the UNIQUE constraint still holds. */
  lemma SaveMealEntryUpserts(es: seq<MealEntry>, periodId: int, date: Date, meal: MealType,
                             ate: bool, price: int, newId: int, now: int)
    requires KeysDistinct(es, EntryKey)
    ensures var r := Upserted(es, periodId, date, meal, ate, price, newId, now);
      var was := Find(es, HasEntryKey(periodId, date, meal));
      Filter(r, HasEntryKey(periodId, date, meal)) ==
        [MealEntry(if was.Some? then was.value.id else newId, periodId, date, meal, ate, price,
                   if was.Some? then was.value.createdAt else now)]
    ensures var r := Upserted(es, periodId, date, meal, ate, price, newId, now);
      Filter(r, LacksEntryKey(periodId, date, meal)) == Filter(es, LacksEntryKey(periodId, date, meal))
    ensures KeysDistinct(Upserted(es, periodId, date, meal, ate, price, newId, now), EntryKey)
  {
    var k := HasEntryKey(periodId, date, meal);
    var nk := LacksEntryKey(periodId, date, meal);
    var r := Upserted(es, periodId, date, meal, ate, price, newId, now);
    match FindIndex(es, k)
    case Some(i) =>
      var v := es[i].(ate := ate, price := price);
      forall j | 0 <= j < |r| && j != i ensures !k(r[j]) {
        assert EntryKey(es[j]) != EntryKey(es[i]) by {
          if j < i { assert KeysDistinct(es, EntryKey); } else { assert KeysDistinct(es, EntryKey); }
        }
      }
      FilterSingle(r, i, k);
      FilterUpdateOutside(es, i, v, nk);
      UpdateKeepsKeysDistinct(es, i, v, EntryKey);
    case None =>
      var v := MealEntry(newId, periodId, date, meal, ate, price, now);
      forall j | 0 <= j < |r| && j != |es| ensures !k(r[j]) {
        assert r[j] == es[j];
      }
      FilterSingle(r, |es|, k);
      FilterConcat(es, [v], nk);
      assert Filter([v], nk) == [];
      assert es + [] == es;
      forall y | y in es ensures EntryKey(y) != EntryKey(v) {
        var j :| 0 <= j < |es| && es[j] == y;
      }
      AppendKeepsKeysDistinct(es, v, EntryKey);
  }

  /** Saving twice under one key is saving once with the second call's
   *  `ate` and `price`: the last write wins, and the first write's id and
   *  time are kept. In particular saving is idempotent. */
  lemma SaveMealEntryLastWriteWins(es: seq<MealEntry>, periodId: int, date: Date, meal: MealType,
                                   ate1: bool, price1: int, id1: int, now1: int,
                                   ate2: bool, price2: int, id2: int, now2: int)
    ensures Upserted(Upserted(es, periodId, date, meal, ate1, price1, id1, now1),
                     periodId, date, meal, ate2, price2, id2, now2)
         == Upserted(es, periodId, date, meal, ate2, price2, id1, now1)
  {
    var k := HasEntryKey(periodId, date, meal);
    var r1 := Upserted(es, periodId, date, meal, ate1, price1, id1, now1);
    match FindIndex(es, k)
    case Some(i) =>
      FindIndexFirst(r1, k, i);
    case None =>
      FindIndexFirst(r1, k, |es|);
  }

  /** The upsert adds at most one row, and hands out the next id exactly
   *  when it adds one. */
  lemma UpsertKeepsIds(es: seq<MealEntry>, periodId: int, date: Date, meal: MealType,
                       ate: bool, price: int, next: int, now: int)
    requires IdsBelow(es, EntryId, next)
    ensures var r := Upserted(es, periodId, date, meal, ate, price, next, now);
      |es| <= |r| <= |es| + 1 && IdsBelow(r, EntryId, next + |r| - |es|)
  {
    match FindIndex(es, HasEntryKey(periodId, date, meal))
    case Some(i) =>
      var v := es[i].(ate := ate, price := price);
      UpdateKeepsKeysDistinct(es, i, v, EntryId);
      assert es[i] in es;
      assert forall e :: e in es[i := v] ==> e in es || e == v;
    case None =>
      AppendFreshId(es, MealEntry(next, periodId, date, meal, ate, price, now), EntryId, next);
  }

  /** A day's slot for a meal kind is the row with that key: what
   *  `getDayMeals` shows is what `getMealEntry` returns. */
  lemma DaySlotIsKeyedRow(es: seq<MealEntry>, periodId: int, date: Date, m: MealType)
    requires KeysDistinct(es, EntryKey)
    ensures Find(DayEntries(es, periodId, date), MealIs(m)) == Find(es, HasEntryKey(periodId, date, m))
  {
    var a := Find(DayEntries(es, periodId, date), MealIs(m));
    var b := Find(es, HasEntryKey(periodId, date, m));
    if b.Some? {
      assert b.value in DayEntries(es, periodId, date);
    }
    if a.Some? && b.Some? {
      KeysDistinctSame(es, EntryKey, a.value, b.value);
    }
  }

  /** The rows `WHERE period_id = ? AND date = ?`. */
  function OnDay(periodId: int, date: Date): MealEntry -> bool {
    (e: MealEntry) => e.periodId == periodId && e.date == date
  }

  function DayEntries(es: seq<MealEntry>, periodId: int, date: Date): seq<MealEntry> {
    Filter(es, OnDay(periodId, date))
  }

  /** The rows `WHERE period_id = ? AND date >= ? AND date <= ?`. */
  function InRange(periodId: int, startDate: Date, endDate: Date): MealEntry -> bool {
    (e: MealEntry) => e.periodId == periodId && DateLe(startDate, e.date) && DateLe(e.date, endDate)
  }

  /** The same rows restricted to `ate = 1`. */
  function InRangeAte(periodId: int, startDate: Date, endDate: Date): MealEntry -> bool {
    (e: MealEntry) => e.periodId == periodId && DateLe(startDate, e.date) && DateLe(e.date, endDate) && e.ate
  }

  /** `ORDER BY date, meal_type`. */
  function EntryOrderKey(e: MealEntry): seq<int> {
    [e.date.year, e.date.month, e.date.day, MealTypeRank(e.mealType)]
  }

  /** `getEntriesBetweenDates` on an open database: the period's rows dated
   *  within `[startDate, endDate]`, ordered by date and then meal kind. */
  function EntriesBetween(es: seq<MealEntry>, periodId: int, startDate: Date, endDate: Date): (r: seq<MealEntry>)
    ensures forall e :: e in r <==> e in es && e.periodId == periodId && DateLe(startDate, e.date) && DateLe(e.date, endDate)
    ensures Sorting.SortedBy(r, EntryOrderKey)
    ensures multiset(r) == multiset(Filter(es, InRange(periodId, startDate, endDate)))
  {
    var f := Filter(es, InRange(periodId, startDate, endDate));
    Sorting.SortBySorted(f, EntryOrderKey, 4);
    Sorting.SortBySameMembers(f, EntryOrderKey);
    Sorting.SortBy(f, EntryOrderKey)
  }

  function Price(e: MealEntry): int {
    e.price
  }

  /** What an entry adds to a total: its price if eaten, else 0. */
  function AteValue(e: MealEntry): int {
    if e.ate then e.price else 0
  }

  /** `SELECT SUM(price) .. AND ate = 1`, where no rows give 0. */
  function RangeTotal(es: seq<MealEntry>, periodId: int, startDate: Date, endDate: Date): int {
    Sum(Filter(es, InRangeAte(periodId, startDate, endDate)), Price)
  }

  /** The SQL total is the sum of `AteValue` over the rows in the range: rows
   *  not eaten add nothing whatever their stored price. */
  lemma RangeTotalIsSumOfEaten(es: seq<MealEntry>, periodId: int, startDate: Date, endDate: Date)
    ensures RangeTotal(es, periodId, startDate, endDate)
         == Sum(Filter(es, InRange(periodId, startDate, endDate)), AteValue)
  {
    var wp := (e: MealEntry) => if InRangeAte(periodId, startDate, endDate)(e) then Price(e) else 0;
    var wq := (e: MealEntry) => if InRange(periodId, startDate, endDate)(e) then AteValue(e) else 0;
    SumFilter(es, InRangeAte(periodId, startDate, endDate), Price, wp);
    SumFilter(es, InRange(periodId, startDate, endDate), AteValue, wq);
    SumSame(es, wp, wq);
  }

  /** Selects one meal kind among a day's rows. */
  function MealIs(m: MealType): MealEntry -> bool {
    (e: MealEntry) => e.mealType == m
  }

  /** What a day-view slot adds to the day total. */
  function SlotValue(slot: Option<MealEntry>): int {
    if slot.Some? && slot.value.ate then slot.value.price else 0
  }

  /** When no two rows share a meal kind, the sum over the rows is the sum
   *  over the three slots found by meal kind. */
  lemma {:induction false} SumBySlots(s: seq<MealEntry>)
    requires forall i, j :: 0 <= i < j < |s| ==> s[i].mealType != s[j].mealType
    ensures Sum(s, AteValue) ==
      SlotValue(Find(s, MealIs(Breakfast))) + SlotValue(Find(s, MealIs(Lunch))) + SlotValue(Find(s, MealIs(Dinner)))
  {
    if |s| > 0 {
      var t := s[1..];
      SumBySlots(t);
      FindCons(s, MealIs(Breakfast));
      FindCons(s, MealIs(Lunch));
      FindCons(s, MealIs(Dinner));
      forall x | x in t ensures x.mealType != s[0].mealType {
        var j :| 0 <= j < |t| && t[j] == x;
        assert s[j + 1] == x;
      }
      assert Find(t, MealIs(s[0].mealType)) == None;
    }
  }

  /** A day's rows of one period hold at most one row per meal kind. */
  lemma DayEntriesOnePerMeal(es: seq<MealEntry>, periodId: int, date: Date)
    requires KeysDistinct(es, EntryKey)
    ensures var s := DayEntries(es, periodId, date);
      forall i, j :: 0 <= i < j < |s| ==> s[i].mealType != s[j].mealType
  {
    FilterKeepsKeysDistinct(es, OnDay(periodId, date), EntryKey);
    var s := DayEntries(es, periodId, date);
    forall i, j | 0 <= i < j < |s| ensures s[i].mealType != s[j].mealType {
      assert s[i] in s && s[j] in s;
    }
  }

  function MealSlot(d: DayMeals, m: MealType): Option<MealEntry> {
    match m
    case Breakfast => d.breakfast
    case Lunch => d.lunch
    case Dinner => d.dinner
  }

  // ----------------------------------------------------------- disabled days

  function DisabledId(d: DisabledDay): int {
    d.id
  }

  /** The UNIQUE(period_id, date) columns. */
  function DayKey(d: DisabledDay): (int, Date) {
    (d.periodId, d.date)
  }

  function HasDayKey(periodId: int, date: Date): DisabledDay -> bool {
    (d: DisabledDay) => d.periodId == periodId && d.date == date
  }

  function LacksDayKey(periodId: int, date: Date): DisabledDay -> bool {
    (d: DisabledDay) => !(d.periodId == periodId && d.date == date)
  }

  /** `SELECT COUNT(*) .. WHERE period_id = ? AND date = ?` is positive. */
  predicate DayIsDisabled(ds: seq<DisabledDay>, periodId: int, date: Date) {
    |Filter(ds, HasDayKey(periodId, date))| > 0
  }

  /** `INSERT OR IGNORE INTO disabled_days`. */
  function WithDayDisabled(ds: seq<DisabledDay>, periodId: int, date: Date, newId: int): seq<DisabledDay> {
    if Find(ds, HasDayKey(periodId, date)).Some? then ds
    else ds + [DisabledDay(newId, periodId, date)]
  }

  /** `DELETE FROM disabled_days WHERE period_id = ? AND date = ?`. */
  function WithDayEnabled(ds: seq<DisabledDay>, periodId: int, date: Date): seq<DisabledDay> {
    Filter(ds, LacksDayKey(periodId, date))
  }

  /** `disableDay` makes the day disabled, is idempotent, and touches no
   *  other row. */
  lemma DisableDayIsIdempotent(ds: seq<DisabledDay>, periodId: int, date: Date, id1: int, id2: int)
    ensures DayIsDisabled(WithDayDisabled(ds, periodId, date, id1), periodId, date)
    ensures WithDayDisabled(WithDayDisabled(ds, periodId, date, id1), periodId, date, id2)
         == WithDayDisabled(ds, periodId, date, id1)
    ensures Filter(WithDayDisabled(ds, periodId, date, id1), LacksDayKey(periodId, date))
         == Filter(ds, LacksDayKey(periodId, date))
  {
    var k := HasDayKey(periodId, date);
    var r := WithDayDisabled(ds, periodId, date, id1);
    var v := DisabledDay(id1, periodId, date);
    if Find(ds, k).None? {
      assert r[|ds|] == v && k(v);
      assert v in r;
      FilterConcat(ds, [v], LacksDayKey(periodId, date));
      assert Filter([v], LacksDayKey(periodId, date)) == [];
      assert Filter(ds, LacksDayKey(periodId, date)) + [] == Filter(ds, LacksDayKey(periodId, date));
    }
    assert Find(r, k).Some?;
    assert Find(r, k).value in Filter(r, k);
  }

  /** `enableDay` makes the day enabled, touches no other row, and changes
   *  nothing when the day was not disabled. */
  lemma EnableDayEnables(ds: seq<DisabledDay>, periodId: int, date: Date)
    ensures !DayIsDisabled(WithDayEnabled(ds, periodId, date), periodId, date)
    ensures forall d :: d in WithDayEnabled(ds, periodId, date) <==> d in ds && DayKey(d) != (periodId, date)
    ensures !DayIsDisabled(ds, periodId, date) ==> WithDayEnabled(ds, periodId, date) == ds
  {
    var r := WithDayEnabled(ds, periodId, date);
    FilterNone(r, HasDayKey(periodId, date));
    if !DayIsDisabled(ds, periodId, date) {
      forall d | d in ds ensures LacksDayKey(periodId, date)(d) {
        assert d !in Filter(ds, HasDayKey(periodId, date));
      }
      FilterAll(ds, LacksDayKey(periodId, date));
    }
  }

  /** Disabling a day and enabling it again leaves the table as enabling
   *  alone would; on a day that was not disabled, as it was. */
  lemma DisableThenEnableRestores(ds: seq<DisabledDay>, periodId: int, date: Date, newId: int)
    ensures WithDayEnabled(WithDayDisabled(ds, periodId, date, newId), periodId, date)
         == WithDayEnabled(ds, periodId, date)
    ensures !DayIsDisabled(ds, periodId, date) ==>
      WithDayEnabled(WithDayDisabled(ds, periodId, date, newId), periodId, date) == ds
  {
    DisableDayIsIdempotent(ds, periodId, date, newId, newId);
    EnableDayEnables(ds, periodId, date);
  }

  // ---------------------------------------------------------------- schedule

  function ScheduleId(it: ScheduleItem): int {
    it.id
  }

  /** The (period_id, day_of_week, meal_type) slot a schedule row fills. */
  function SlotKey(it: ScheduleItem): (int, int, MealType) {
    (it.periodId, it.dayOfWeek, it.mealType)
  }

  function HasSlotKey(periodId: int, dayOfWeek: int, meal: MealType): ScheduleItem -> bool {
    (it: ScheduleItem) => it.periodId == periodId && it.dayOfWeek == dayOfWeek && it.mealType == meal
  }

  function LacksSlotKey(periodId: int, dayOfWeek: int, meal: MealType): ScheduleItem -> bool {
    (it: ScheduleItem) => !(it.periodId == periodId && it.dayOfWeek == dayOfWeek && it.mealType == meal)
  }

  function NotInPeriod(periodId: int): ScheduleItem -> bool {
    (it: ScheduleItem) => it.periodId != periodId
  }

  /** `DELETE .. WHERE period_id = ? AND day_of_week = ? AND meal_type = ?`. */
  function WithoutSlot(ss: seq<ScheduleItem>, periodId: int, dayOfWeek: int, meal: MealType): seq<ScheduleItem> {
    Filter(ss, LacksSlotKey(periodId, dayOfWeek, meal))
  }

  /** The rows `deleteScheduleItem` keeps. Its `meal_type` argument is any
   *  text, compared with each row's stored meal name. */
  function LacksSlotText(periodId: int, dayOfWeek: int, mealType: string): ScheduleItem -> bool {
    (it: ScheduleItem) => !(it.periodId == periodId && it.dayOfWeek == dayOfWeek && MealTypeName(it.mealType) == mealType)
  }

  /** `deleteScheduleItem`'s DELETE, with the meal given as text. */
  function WithoutSlotNamed(ss: seq<ScheduleItem>, periodId: int, dayOfWeek: int, mealType: string): seq<ScheduleItem> {
    Filter(ss, LacksSlotText(periodId, dayOfWeek, mealType))
  }

  /** A text that names a meal kind deletes that kind's slot; any other
   *  text matches no stored row and deletes nothing. */
  lemma DeleteByNameIsDeleteBySlot(ss: seq<ScheduleItem>, periodId: int, dayOfWeek: int, mealType: string)
    ensures ParseMealType(mealType).Some? ==>
      WithoutSlotNamed(ss, periodId, dayOfWeek, mealType) == WithoutSlot(ss, periodId, dayOfWeek, ParseMealType(mealType).value)
    ensures ParseMealType(mealType).None? ==> WithoutSlotNamed(ss, periodId, dayOfWeek, mealType) == ss
  {
    forall x: MealType ensures MealTypeName(x) == mealType <==> ParseMealType(mealType) == Some(x) {
      MealTypeNameRoundTrip(x);
    }
    match ParseMealType(mealType)
    case Some(m) =>
      FilterSame(ss, LacksSlotText(periodId, dayOfWeek, mealType), LacksSlotKey(periodId, dayOfWeek, m));
    case None =>
      FilterAll(ss, LacksSlotText(periodId, dayOfWeek, mealType));
  }

  /** `saveScheduleItem`: the DELETE above, then the INSERT. */
  function WithSlot(ss: seq<ScheduleItem>, periodId: int, dayOfWeek: int, meal: MealType,
                    time: TimeOfDay, newId: int): seq<ScheduleItem>
  {
    WithoutSlot(ss, periodId, dayOfWeek, meal) + [ScheduleItem(newId, periodId, dayOfWeek, meal, time)]
  }

  /** `DELETE FROM schedule WHERE period_id = ?`. */
  function WithoutPeriodSchedule(ss: seq<ScheduleItem>, periodId: int): seq<ScheduleItem> {
    Filter(ss, NotInPeriod(periodId))
  }

  /** After `saveScheduleItem` the slot holds exactly the new row with the
   *  new time, every other row is unchanged, and the slots stay unique.
   *  Saving twice therefore leaves one row, with the later time. */
  lemma SaveScheduleItemReplaces(ss: seq<ScheduleItem>, periodId: int, dayOfWeek: int, meal: MealType,
                                 time: TimeOfDay, newId: int)
    ensures var r := WithSlot(ss, periodId, dayOfWeek, meal, time, newId);
      Filter(r, HasSlotKey(periodId, dayOfWeek, meal)) == [ScheduleItem(newId, periodId, dayOfWeek, meal, time)]
    ensures var r := WithSlot(ss, periodId, dayOfWeek, meal, time, newId);
      Filter(r, LacksSlotKey(periodId, dayOfWeek, meal)) == Filter(ss, LacksSlotKey(periodId, dayOfWeek, meal))
    ensures KeysDistinct(ss, SlotKey) ==> KeysDistinct(WithSlot(ss, periodId, dayOfWeek, meal, time, newId), SlotKey)
  {
    var k := HasSlotKey(periodId, dayOfWeek, meal);
    var nk := LacksSlotKey(periodId, dayOfWeek, meal);
    var v := ScheduleItem(newId, periodId, dayOfWeek, meal, time);
    var f := WithoutSlot(ss, periodId, dayOfWeek, meal);
    FilterConcat(f, [v], k);
    FilterNone(f, k);
    assert Filter([v], k) == [v];
    FilterConcat(f, [v], nk);
    assert Filter([v], nk) == [];
    FilterAll(f, nk);
    assert f + [] == f;
    if KeysDistinct(ss, SlotKey) {
      FilterKeepsKeysDistinct(ss, nk, SlotKey);
      AppendKeepsKeysDistinct(f, v, SlotKey);
    }
  }

  /** Saving the same slot twice keeps only the second time. */
  lemma SaveScheduleItemTwiceKeepsLatest(ss: seq<ScheduleItem>, periodId: int, dayOfWeek: int, meal: MealType,
                                         time1: TimeOfDay, id1: int, time2: TimeOfDay, id2: int)
    ensures var r := WithSlot(WithSlot(ss, periodId, dayOfWeek, meal, time1, id1), periodId, dayOfWeek, meal, time2, id2);
      Filter(r, HasSlotKey(periodId, dayOfWeek, meal)) == [ScheduleItem(id2, periodId, dayOfWeek, meal, time2)]
  {
    SaveScheduleItemReplaces(WithSlot(ss, periodId, dayOfWeek, meal, time1, id1), periodId, dayOfWeek, meal, time2, id2);
  }

  /** `deleteScheduleItem` empties the slot and keeps every other row;
   *  `clearSchedule` removes exactly the period's rows. */
  lemma DeleteAndClearScheduleRemoveOnlyTheirRows(ss: seq<ScheduleItem>, periodId: int, dayOfWeek: int, meal: MealType)
    ensures Filter(WithoutSlot(ss, periodId, dayOfWeek, meal), HasSlotKey(periodId, dayOfWeek, meal)) == []
    ensures Filter(WithoutSlot(ss, periodId, dayOfWeek, meal), LacksSlotKey(periodId, dayOfWeek, meal))
         == Filter(ss, LacksSlotKey(periodId, dayOfWeek, meal))
    ensures forall it :: it in WithoutPeriodSchedule(ss, periodId) <==> it in ss && it.periodId != periodId
  {
    var f := WithoutSlot(ss, periodId, dayOfWeek, meal);
    FilterNone(f, HasSlotKey(periodId, dayOfWeek, meal));
    FilterAll(f, LacksSlotKey(periodId, dayOfWeek, meal));
  }

  /** The stores' writes keep every schedule row well formed when the
   *  caller supplies a well-formed row. */
  lemma SaveScheduleItemKeepsWellFormed(ss: seq<ScheduleItem>, periodId: int, dayOfWeek: int, meal: MealType,
                                        time: TimeOfDay, newId: int)
    requires forall it :: it in ss ==> WellFormedScheduleItem(it)
    requires 0 <= dayOfWeek <= 6 && WellFormedTime(time)
    ensures forall it :: it in WithSlot(ss, periodId, dayOfWeek, meal, time, newId) ==> WellFormedScheduleItem(it)
  {
  }

  function InPeriod(periodId: int): ScheduleItem -> bool {
    (it: ScheduleItem) => it.periodId == periodId
  }

  function OnWeekday(periodId: int, dayOfWeek: int): ScheduleItem -> bool {
    (it: ScheduleItem) => it.periodId == periodId && it.dayOfWeek == dayOfWeek
  }

  /** `ORDER BY day_of_week, meal_type`. */
  function WeekOrderKey(it: ScheduleItem): seq<int> {
    [it.dayOfWeek, MealTypeRank(it.mealType)]
  }

  /** `ORDER BY time`: `HH:MM` text sorts as (hour, minute). */
  function TimeOrderKey(it: ScheduleItem): seq<int> {
    [it.time.hour, it.time.minute]
  }

  // ------------------------------------------------------------------ tables

  /** Ids assigned by AUTOINCREMENT: positive, below the next one, distinct. */
  ghost predicate IdsBelow<T(!new)>(s: seq<T>, id: T -> int, next: int) {
    1 <= next && (forall x :: x in s ==> 1 <= id(x) < next) && KeysDistinct(s, id)
  }

  lemma AppendFreshId<T(!new)>(s: seq<T>, x: T, id: T -> int, next: int)
    requires IdsBelow(s, id, next) && id(x) == next
    ensures IdsBelow(s + [x], id, next + 1)
  {
    assert forall y :: y in s ==> id(y) != id(x);
    AppendKeepsKeysDistinct(s, x, id);
    assert forall y :: y in s + [x] ==> y in s || y == x;
  }

  lemma FilterKeepsIds<T(!new)>(s: seq<T>, p: T -> bool, id: T -> int, next: int)
    requires IdsBelow(s, id, next)
    ensures IdsBelow(Filter(s, p), id, next)
  {
    FilterKeepsKeysDistinct(s, p, id);
  }

  class Store {
    /** The database handle is open. */
    var ready: bool
    var periods: seq<Period>
    var entries: seq<MealEntry>
    var schedule: seq<ScheduleItem>
    var disabledDays: seq<DisabledDay>
    /** The next id AUTOINCREMENT hands out in each table. */
    var nextPeriodId: int
    var nextEntryId: int
    var nextScheduleId: int
    var nextDisabledId: int

    /** What the tables keep: fresh distinct ids in every table, the UNIQUE
     *  keys of meal_entries and disabled_days, and at most one schedule row
     *  per (period, weekday, meal). The schedule has no UNIQUE constraint;
     *  its writers keep that slot key by deleting before they insert. */
    ghost predicate Valid()
      reads this
    {
      && IdsBelow(periods, PeriodId, nextPeriodId)
      && IdsBelow(entries, EntryId, nextEntryId)
      && IdsBelow(schedule, ScheduleId, nextScheduleId)
      && IdsBelow(disabledDays, DisabledId, nextDisabledId)
      && KeysDistinct(entries, EntryKey)
      && KeysDistinct(schedule, SlotKey)
      && KeysDistinct(disabledDays, DayKey)
    }

    /** The handle before `initDatabase`: null, with empty tables. */
    constructor ()
      ensures Valid() && !ready
      ensures periods == [] && entries == [] && schedule == [] && disabledDays == []
    {
      ready := false;
      periods, entries, schedule, disabledDays := [], [], [], [];
      nextPeriodId, nextEntryId, nextScheduleId, nextDisabledId := 1, 1, 1, 1;
    }

    /** `initDatabase`: opens the handle; CREATE TABLE IF NOT EXISTS keeps
     *  whatever rows the tables hold. */
    method InitDatabase()
      requires Valid()
      modifies this`ready
      ensures Valid() && ready
    {
      ready := true;
    }

    /** `getActivePeriod`: null before initialisation or when no period is
     *  active, otherwise the first active row. */
    function GetActivePeriod(): (r: Option<Period>)
      reads this
      ensures !ready ==> r.None?
      ensures r.Some? ==> r.value in periods && r.value.isActive
      ensures ready && r.None? ==> forall p :: p in periods ==> !p.isActive
    {
      if ready then Find(periods, IsActive) else None
    }

    /** `createPeriod`: deactivates every period, inserts the new one and
     *  returns its id. */
    method CreatePeriod(name: Option<string>, startDate: Date, endDate: Date, isActive: bool)
      returns (r: Result<int, StoreError>)
      requires Valid()
      modifies this`periods, this`nextPeriodId
      ensures Valid()
      ensures !ready ==> r == Err(NotInitialized) && periods == old(periods) && nextPeriodId == old(nextPeriodId)
      ensures ready ==> r == Ok(old(nextPeriodId)) && nextPeriodId == old(nextPeriodId) + 1
      ensures ready ==> periods == WithNewPeriod(old(periods),
                          Period(old(nextPeriodId), StoredName(name), startDate, endDate, isActive))
      ensures ready ==> forall p :: p in old(periods) ==> p.id != r.value
      ensures ready ==> AtMostOneActive(periods)
    {
      if !ready {
        return Err(NotInitialized);
      }
      var p := Period(nextPeriodId, StoredName(name), startDate, endDate, isActive);
      DeactivatedKeepsIds(periods, nextPeriodId);
      AppendFreshId(Deactivated(periods), p, PeriodId, nextPeriodId);
      CreatePeriodKeepsOneActive(periods, p);
      periods := WithNewPeriod(periods, p);
      r := Ok(nextPeriodId);
      nextPeriodId := nextPeriodId + 1;
    }

    /** `updatePeriod`: sets the supplied fields on the row with the id. */
    method UpdatePeriod(id: int, patch: PeriodPatch) returns (r: Outcome<StoreError>)
      requires Valid()
      modifies this`periods
      ensures Valid()
      ensures !ready ==> r == Fail(NotInitialized) && periods == old(periods)
      ensures ready ==> r == Pass && periods == Patched(old(periods), id, patch)
    {
      if !ready {
        return Fail(NotInitialized);
      }
      var updated := Patched(periods, id, patch);
      assert IdsBelow(updated, PeriodId, nextPeriodId) by {
        forall q | q in updated ensures 1 <= q.id < nextPeriodId {
          var i :| 0 <= i < |updated| && updated[i] == q;
          assert periods[i] in periods;
        }
        forall i, j | 0 <= i < j < |updated| ensures updated[i].id != updated[j].id {
          assert PeriodId(periods[i]) != PeriodId(periods[j]);
        }
      }
      periods := updated;
      r := Pass;
    }

    /** `getMealEntry`: the row with the key, or null. */
    function GetMealEntry(periodId: int, date: Date, meal: MealType): (r: Option<MealEntry>)
      reads this
      ensures r.Some? ==> ready && r.value in entries && EntryKey(r.value) == (periodId, date, meal)
      ensures r.None? ==> !ready || forall e :: e in entries ==> EntryKey(e) != (periodId, date, meal)
    {
      if ready then Find(entries, HasEntryKey(periodId, date, meal)) else None
    }

    /** `getDayEntries`: the period's rows for the date; `[]` before initialisation. */
    function GetDayEntries(periodId: int, date: Date): (r: seq<MealEntry>)
      reads this
      ensures forall e :: e in r <==> ready && e in entries && e.periodId == periodId && e.date == date
      ensures ready ==> multiset(r) == multiset(Filter(entries, OnDay(periodId, date)))
    {
      if ready then DayEntries(entries, periodId, date) else []
    }

    /** `saveMealEntry`: the upsert on (period, date, meal); `now` is the
     *  database clock that fills `created_at`. */
    method SaveMealEntry(periodId: int, date: Date, meal: MealType, ate: bool, price: int, now: int)
      returns (r: Outcome<StoreError>)
      requires Valid()
      modifies this`entries, this`nextEntryId
      ensures Valid()
      ensures !ready ==> r == Fail(NotInitialized) && entries == old(entries)
      ensures ready ==> r == Pass
      ensures ready ==> entries == Upserted(old(entries), periodId, date, meal, ate, price, old(nextEntryId), now)
      ensures nextEntryId == old(nextEntryId) + |entries| - |old(entries)|
    {
      if !ready {
        return Fail(NotInitialized);
      }
      SaveMealEntryUpserts(entries, periodId, date, meal, ate, price, nextEntryId, now);
      UpsertKeepsIds(entries, periodId, date, meal, ate, price, nextEntryId, now);
      var updated := Upserted(entries, periodId, date, meal, ate, price, nextEntryId, now);
      nextEntryId := nextEntryId + |updated| - |entries|;
      entries := updated;
      r := Pass;
    }

    /** `getEntriesBetweenDates`; `[]` before initialisation. */
    function GetEntriesBetweenDates(periodId: int, startDate: Date, endDate: Date): (r: seq<MealEntry>)
      reads this
      ensures forall e :: e in r <==>
        ready && e in entries && e.periodId == periodId && DateLe(startDate, e.date) && DateLe(e.date, endDate)
      ensures Sorting.SortedBy(r, EntryOrderKey)
      ensures ready ==> multiset(r) == multiset(Filter(entries, InRange(periodId, startDate, endDate)))
    {
      if ready then EntriesBetween(entries, periodId, startDate, endDate) else []
    }

    /** `isDayDisabled`; false before initialisation. */
    function IsDayDisabled(periodId: int, date: Date): (r: bool)
      reads this
      ensures r <==> ready && exists d :: d in disabledDays && DayKey(d) == (periodId, date)
    {
      var f := Filter(disabledDays, HasDayKey(periodId, date));
      assert |f| > 0 ==> f[0] in f;
      ready && DayIsDisabled(disabledDays, periodId, date)
    }

    /** `disableDay`: INSERT OR IGNORE of (period, date). */
    method DisableDay(periodId: int, date: Date) returns (r: Outcome<StoreError>)
      requires Valid()
      modifies this`disabledDays, this`nextDisabledId
      ensures Valid()
      ensures !ready ==> r == Fail(NotInitialized) && disabledDays == old(disabledDays)
      ensures ready ==> r == Pass && disabledDays == WithDayDisabled(old(disabledDays), periodId, date, old(nextDisabledId))
      ensures ready ==> IsDayDisabled(periodId, date)
    {
      if !ready {
        return Fail(NotInitialized);
      }
      DisableDayIsIdempotent(disabledDays, periodId, date, nextDisabledId, nextDisabledId);
      var k := HasDayKey(periodId, date);
      if Find(disabledDays, k).None? {
        var v := DisabledDay(nextDisabledId, periodId, date);
        AppendFreshId(disabledDays, v, DisabledId, nextDisabledId);
        forall y | y in disabledDays ensures DayKey(y) != DayKey(v) {
          assert !k(y);
        }
        AppendKeepsKeysDistinct(disabledDays, v, DayKey);
        disabledDays := disabledDays + [v];
        nextDisabledId := nextDisabledId + 1;
      }
      r := Pass;
    }

    /** `enableDay`: DELETE of (period, date). */
    method EnableDay(periodId: int, date: Date) returns (r: Outcome<StoreError>)
      requires Valid()
      modifies this`disabledDays
      ensures Valid()
      ensures !ready ==> r == Fail(NotInitialized) && disabledDays == old(disabledDays)
      ensures ready ==> r == Pass && disabledDays == WithDayEnabled(old(disabledDays), periodId, date)
      ensures ready ==> !IsDayDisabled(periodId, date)
    {
      if !ready {
        return Fail(NotInitialized);
      }
      EnableDayEnables(disabledDays, periodId, date);
      FilterKeepsIds(disabledDays, LacksDayKey(periodId, date), DisabledId, nextDisabledId);
      FilterKeepsKeysDistinct(disabledDays, LacksDayKey(periodId, date), DayKey);
      disabledDays := WithDayEnabled(disabledDays, periodId, date);
      r := Pass;
    }

    /** `getDisabledDays`: the period's disabled dates; `[]` before initialisation. */
    function GetDisabledDays(periodId: int): (r: seq<Date>)
      reads this
      ensures forall d :: d in r <==> ready && exists x :: x in disabledDays && x.periodId == periodId && x.date == d
    {
      if !ready then []
      else
        var f := Filter(disabledDays, (x: DisabledDay) => x.periodId == periodId);
        var r := seq(|f|, i requires 0 <= i < |f| => f[i].date);
        assert forall x :: x in f ==> x.date in r by {
          forall x | x in f ensures x.date in r {
            var i :| 0 <= i < |f| && f[i] == x;
            assert r[i] == x.date;
          }
        }
        assert forall d :: d in r ==> exists x :: x in f && x.date == d by {
          forall d | d in r ensures exists x :: x in f && x.date == d {
            var i :| 0 <= i < |r| && r[i] == d;
            assert f[i] in f;
          }
        }
        r
    }

    /** `getSchedule`: the period's rows ordered by weekday then meal kind. */
    function GetSchedule(periodId: int): (r: seq<ScheduleItem>)
      reads this
      ensures forall it :: it in r <==> ready && it in schedule && it.periodId == periodId
      ensures Sorting.SortedBy(r, WeekOrderKey)
      ensures ready ==> multiset(r) == multiset(Filter(schedule, InPeriod(periodId)))
    {
      if !ready then []
      else
        var f := Filter(schedule, InPeriod(periodId));
        Sorting.SortBySorted(f, WeekOrderKey, 2);
        Sorting.SortBySameMembers(f, WeekOrderKey);
        Sorting.SortBy(f, WeekOrderKey)
    }

    /** `getScheduleForDay`: the period's rows for one weekday, ordered by time. */
    function GetScheduleForDay(periodId: int, dayOfWeek: int): (r: seq<ScheduleItem>)
      reads this
      ensures forall it :: it in r <==> ready && it in schedule && it.periodId == periodId && it.dayOfWeek == dayOfWeek
      ensures Sorting.SortedBy(r, TimeOrderKey)
      ensures ready ==> multiset(r) == multiset(Filter(schedule, OnWeekday(periodId, dayOfWeek)))
    {
      if !ready then []
      else
        var f := Filter(schedule, OnWeekday(periodId, dayOfWeek));
        Sorting.SortBySorted(f, TimeOrderKey, 2);
        Sorting.SortBySameMembers(f, TimeOrderKey);
        Sorting.SortBy(f, TimeOrderKey)
    }

    /** `saveScheduleItem`: delete the slot's row, then insert the new one. */
    method SaveScheduleItem(periodId: int, dayOfWeek: int, meal: MealType, time: TimeOfDay)
      returns (r: Outcome<StoreError>)
      requires Valid()
      modifies this`schedule, this`nextScheduleId
      ensures Valid()
      ensures !ready ==> r == Fail(NotInitialized) && schedule == old(schedule)
      ensures ready ==> r == Pass && schedule == WithSlot(old(schedule), periodId, dayOfWeek, meal, time, old(nextScheduleId))
    {
      if !ready {
        return Fail(NotInitialized);
      }
      SaveScheduleItemReplaces(schedule, periodId, dayOfWeek, meal, time, nextScheduleId);
      var kept := WithoutSlot(schedule, periodId, dayOfWeek, meal);
      FilterKeepsIds(schedule, LacksSlotKey(periodId, dayOfWeek, meal), ScheduleId, nextScheduleId);
      AppendFreshId(kept, ScheduleItem(nextScheduleId, periodId, dayOfWeek, meal, time), ScheduleId, nextScheduleId);
      schedule := kept;
      schedule := schedule + [ScheduleItem(nextScheduleId, periodId, dayOfWeek, meal, time)];
      nextScheduleId := nextScheduleId + 1;
      r := Pass;
    }

    /** `deleteScheduleItem`: removes the slot's rows; the meal is given as
     *  text, so a text naming no meal kind removes nothing. */
    method DeleteScheduleItem(periodId: int, dayOfWeek: int, mealType: string) returns (r: Outcome<StoreError>)
      requires Valid()
      modifies this`schedule
      ensures Valid()
      ensures !ready ==> r == Fail(NotInitialized) && schedule == old(schedule)
      ensures ready ==> r == Pass && schedule == WithoutSlotNamed(old(schedule), periodId, dayOfWeek, mealType)
      ensures ready && ParseMealType(mealType).Some? ==>
        schedule == WithoutSlot(old(schedule), periodId, dayOfWeek, ParseMealType(mealType).value)
      ensures ParseMealType(mealType).None? ==> schedule == old(schedule)
    {
      if !ready {
        return Fail(NotInitialized);
      }
      DeleteByNameIsDeleteBySlot(schedule, periodId, dayOfWeek, mealType);
      FilterKeepsIds(schedule, LacksSlotText(periodId, dayOfWeek, mealType), ScheduleId, nextScheduleId);
      FilterKeepsKeysDistinct(schedule, LacksSlotText(periodId, dayOfWeek, mealType), SlotKey);
      schedule := WithoutSlotNamed(schedule, periodId, dayOfWeek, mealType);
      r := Pass;
    }

    /** `clearSchedule`: removes every row of the period. */
    method ClearSchedule(periodId: int) returns (r: Outcome<StoreError>)
      requires Valid()
      modifies this`schedule
      ensures Valid()
      ensures !ready ==> r == Fail(NotInitialized) && schedule == old(schedule)
      ensures ready ==> r == Pass && schedule == WithoutPeriodSchedule(old(schedule), periodId)
    {
      if !ready {
        return Fail(NotInitialized);
      }
      FilterKeepsIds(schedule, NotInPeriod(periodId), ScheduleId, nextScheduleId);
      FilterKeepsKeysDistinct(schedule, NotInPeriod(periodId), SlotKey);
      schedule := WithoutPeriodSchedule(schedule, periodId);
      r := Pass;
    }

    /** `getDayMeals`: the day's entry per meal kind, the disabled flag, and
     *  the sum of the eaten entries' prices. Reads degrade, so before
     *  initialisation every slot is null and the total 0. */
    function GetDayMeals(periodId: int, date: Date): (r: DayMeals)
      reads this
      ensures r.date == date && r.isDisabled == IsDayDisabled(periodId, date)
      ensures r.total == Sum(GetDayEntries(periodId, date), AteValue)
    {
      var day := GetDayEntries(periodId, date);
      DayMeals(date, Find(day, MealIs(Breakfast)), Find(day, MealIs(Lunch)), Find(day, MealIs(Dinner)),
               IsDayDisabled(periodId, date), Sum(day, AteValue))
    }

    /** Each slot of the day view is that meal's entry for the day, or null
     *  when there is none; it is the row `getMealEntry` returns. */
    lemma DayMealsSlots(periodId: int, date: Date, m: MealType)
      requires Valid()
      ensures var s := MealSlot(GetDayMeals(periodId, date), m);
        (s.Some? ==> s.value in entries && EntryKey(s.value) == (periodId, date, m)) &&
        (s.None? <==> !ready || forall e :: e in entries ==> EntryKey(e) != (periodId, date, m)) &&
        s == GetMealEntry(periodId, date, m)
    {
      if ready {
        DaySlotIsKeyedRow(entries, periodId, date, m);
      }
    }

    /** `calculateTotalForPeriod`: 0 before initialisation. */
    function CalculateTotalForPeriod(periodId: int, startDate: Date, endDate: Date): (r: int)
      reads this
      ensures r == if ready then Sum(Filter(entries, InRange(periodId, startDate, endDate)), AteValue) else 0
    {
      RangeTotalIsSumOfEaten(entries, periodId, startDate, endDate);
      if ready then RangeTotal(entries, periodId, startDate, endDate) else 0
    }

    /** The day view's total is the sum over its three slots, and agrees
     *  with `calculateTotalForPeriod` over the one-day range. */
    lemma DayTotalAgreesWithPeriodTotal(periodId: int, date: Date)
      requires Valid()
      ensures var d := GetDayMeals(periodId, date);
        d.total == SlotValue(d.breakfast) + SlotValue(d.lunch) + SlotValue(d.dinner)
      ensures GetDayMeals(periodId, date).total == CalculateTotalForPeriod(periodId, date, date)
    {
      if ready {
        DayEntriesOnePerMeal(entries, periodId, date);
        SumBySlots(DayEntries(entries, periodId, date));
        DateLeIsTotalOrder(date, date, date);
        forall e | e in entries ensures OnDay(periodId, date)(e) == InRange(periodId, date, date)(e) {
          DateLeIsTotalOrder(date, e.date, date);
        }
        FilterSame(entries, OnDay(periodId, date), InRange(periodId, date, date));
      }
    }
  }
}
