/**
 * The day view: the shown date, the active period, the loaded day, and the
 * rules for moving between days, for storing a tapped meal, for creating a
 * period on first launch and for returning to the foreground.
 *
 * The component's state is the class `HomeScreen`; the store it reads and
 * writes is passed to each handler. "Today" is a parameter. React re-runs
 * `loadDayData` whenever the shown date changes; here the handlers change
 * the date and `LoadDayData` is the separate reload.
 */
module HomeScreen {
  import opened Wrappers
  import opened Calendar
  import opened Types
  import opened Seqs
  import opened Database
  import MealCard
  import Notifications

  /** The name given to the period created on first launch ("Test period"). */
  const DefaultPeriodName: string := "Тестовий період"

  /** `isDateInPeriod`: inclusive at both ends. */
  predicate IsDateInPeriod(date: Date, period: Period) {
    DateLe(period.startDate, date) && DateLe(date, period.endDate)
  }

  /** `isDateNotInFuture`: the day is today or earlier. */
  predicate IsDateNotInFuture(date: Date, today: Date) {
    DateLe(date, today)
  }

  /** `canGoNext`: the next day is not in the future and lies in the period;
   *  false without a period. */
  predicate CanGoNext(current: Date, period: Option<Period>, today: Date) {
    IsDateNotInFuture(Next(current), today) && period.Some? && IsDateInPeriod(Next(current), period.value)
  }

  /** The date `goToPreviousDay` leaves: the day before if it is in the period. */
  function AfterPrevious(current: Date, period: Option<Period>): Date {
    if period.Some? && IsDateInPeriod(Prev(current), period.value) then Prev(current) else current
  }

  /** The date `goToNextDay` leaves: the day after if `canGoNext` allows it. */
  function AfterNext(current: Date, period: Option<Period>, today: Date): Date {
    if IsDateNotInFuture(Next(current), today) && period.Some? && IsDateInPeriod(Next(current), period.value)
    then Next(current) else current
  }

  /** `canGoNext` is exactly the condition under which `goToNextDay` moves. */
  lemma CanGoNextIsNextGuard(current: Date, period: Option<Period>, today: Date)
    requires ValidDate(current)
    ensures CanGoNext(current, period, today) <==> AfterNext(current, period, today) != current
    ensures CanGoNext(current, period, today) ==> AfterNext(current, period, today) == Next(current)
    ensures period.None? ==> !CanGoNext(current, period, today)
  {
    NextIsSuccessor(current, current);
  }

  /** Navigation moves by at most one day, never leaves the period once
   *  inside it, and never moves into the future. */
  lemma NavigationStaysInPeriod(current: Date, p: Period, today: Date)
    requires ValidDate(current) && IsDateInPeriod(current, p)
    ensures IsDateInPeriod(AfterPrevious(current, Some(p)), p)
    ensures IsDateInPeriod(AfterNext(current, Some(p), today), p)
    ensures IsDateNotInFuture(current, today) ==> IsDateNotInFuture(AfterPrevious(current, Some(p)), today)
    ensures IsDateNotInFuture(current, today) ==> IsDateNotInFuture(AfterNext(current, Some(p), today), today)
    ensures AfterPrevious(current, Some(p)) in {current, Prev(current)}
    ensures AfterNext(current, Some(p), today) in {current, Next(current)}
  {
    PrevIsPredecessor(current, current);
    DateLeIsTotalOrder(Prev(current), current, today);
  }

  /** Stepping forward and then back returns to the day one started from. */
  lemma NextThenPreviousReturns(current: Date, p: Period, today: Date)
    requires ValidDate(current) && IsDateInPeriod(current, p)
    requires CanGoNext(current, Some(p), today)
    ensures AfterPrevious(AfterNext(current, Some(p), today), Some(p)) == current
  {
    PrevNextInverse(current);
  }

  /** `finalPrice`: 0 when not eaten; otherwise the given price, or the
   *  meal's default when none is given (`??` replaces only a missing one). */
  function FinalPrice(m: MealType, ate: bool, price: Option<int>): (r: int)
    ensures !ate ==> r == 0
    ensures ate && price.Some? ==> r == price.value
    ensures ate && price.None? ==> r == MealCard.DefaultPrice(m)
  {
    if ate then price.GetOr(StandardPrice(m)) else 0
  }

  /** A card's event passes through the price rule unchanged. */
  lemma CardEventPriceIsStored(m: MealType, entry: Option<MealEntry>, isDisabled: bool)
    ensures var ev := MealCard.HandleToggle(m, entry, isDisabled);
      ev.Some? ==> FinalPrice(m, ev.value.ate, Some(ev.value.price)) == ev.value.price
    ensures var ev := MealCard.HandleDinnerPrice(DinnerAlternativePrice, isDisabled);
      ev.Some? ==> FinalPrice(Dinner, ev.value.ate, Some(ev.value.price)) == DinnerAlternativePrice
  {
  }

  /** The two ways of marking a meal eaten treat an explicit price of 0
   *  differently: the day view stores 0, while the "ate" answer to a
   *  notification replaces it by the meal's fixed price. */
  lemma ZeroPriceDiffersFromNotification(m: MealType)
    ensures FinalPrice(m, true, Some(0)) == 0
    ensures Notifications.ActionMark("ate", m, Some(0)) == (true, StandardPrice(m))
    ensures StandardPrice(m) != 0
  {
  }

  /** The period created on first launch: one month either side of today,
   *  with JavaScript's spill-over for days the target month lacks. */
  function DefaultPeriodRange(today: Date): (Date, Date)
    requires ValidDate(today)
  {
    (AddMonths(today, -1), AddMonths(today, 1))
  }

  /** The first-launch period contains today, and neither end is today. */
  lemma DefaultPeriodContainsToday(today: Date)
    requires ValidDate(today)
    ensures var (s, e) := DefaultPeriodRange(today);
      ValidDate(s) && ValidDate(e) && DateLt(s, today) && DateLt(today, e) &&
      IsDateInPeriod(today, Period(0, None, s, e, true))
  {
    AddOneMonthBrackets(today);
  }

  class HomeScreen {
    var currentDate: Date
    var period: Option<Period>
    var dayMeals: Option<DayMeals>
    var isLoading: bool

    /** The first render: today, no period, nothing loaded, loading. */
    constructor (today: Date)
      ensures currentDate == today && period.None? && dayMeals.None? && isLoading
    {
      currentDate := today;
      period := None;
      dayMeals := None;
      isLoading := true;
    }

    /** `init`: opens the store, takes the active period, and creates the
     *  default period when there is none. Afterwards the screen shows the
     *  store's active period. */
    method Init(store: Store, today: Date)
      requires store.Valid() && ValidDate(today)
      modifies this`period, this`isLoading, store`ready, store`periods, store`nextPeriodId
      ensures store.Valid() && store.ready && !isLoading
      ensures period.Some? && period == store.GetActivePeriod()
      ensures Find(old(store.periods), IsActive).Some? ==>
        store.periods == old(store.periods) && period == Find(old(store.periods), IsActive)
      ensures Find(old(store.periods), IsActive).None? ==>
        store.periods == WithNewPeriod(old(store.periods),
          Period(old(store.nextPeriodId), Some(DefaultPeriodName), DefaultPeriodRange(today).0, DefaultPeriodRange(today).1, true)) &&
        IsDateInPeriod(today, period.value)
    {
      store.InitDatabase();
      var active := store.GetActivePeriod();
      if active.None? {
        var (startDate, endDate) := DefaultPeriodRange(today);
        var created := store.CreatePeriod(Some(DefaultPeriodName), startDate, endDate, true);
        var p := Period(created.value, Some(DefaultPeriodName), startDate, endDate, true);
        CreatePeriodKeepsOneActive(old(store.periods), p);
        DefaultPeriodContainsToday(today);
        active := Some(p);
      }
      period := active;
      isLoading := false;
    }

    /** `loadDayData`: reads the shown day of the period; nothing without a
     *  period id. */
    method LoadDayData(store: Store)
      modifies this`dayMeals
      ensures dayMeals == if period.None? || period.value.id == 0 then old(dayMeals)
        else Some(store.GetDayMeals(period.value.id, currentDate))
    {
      if period.None? || period.value.id == 0 {
        return;
      }
      dayMeals := Some(store.GetDayMeals(period.value.id, currentDate));
    }

    /** The app-state listener on becoming active: jump to today if the shown
     *  day differs, otherwise reload it. */
    method AppResume(store: Store, today: Date)
      modifies this`currentDate, this`dayMeals
      ensures currentDate == today
      ensures old(currentDate) != today ==> dayMeals == old(dayMeals)
      ensures old(currentDate) == today && (period.None? || period.value.id == 0) ==> dayMeals == old(dayMeals)
      ensures old(currentDate) == today && period.Some? && period.value.id != 0 ==>
        dayMeals == Some(store.GetDayMeals(period.value.id, today))
    {
      if currentDate != today {
        currentDate := today;
      } else {
        LoadDayData(store);
      }
    }

    /** `handleMealToggle`: stores the meal for the shown day at the final
     *  price, then reloads the day. Without a period id nothing happens; a
     *  failed write skips the reload. */
    method HandleMealToggle(store: Store, m: MealType, ate: bool, price: Option<int>, now: int)
      requires store.Valid()
      modifies store`entries, store`nextEntryId, this`dayMeals
      ensures store.Valid()
      ensures period.None? || period.value.id == 0 || !store.ready ==>
        store.entries == old(store.entries) && dayMeals == old(dayMeals)
      ensures period.Some? && period.value.id != 0 && store.ready ==>
        store.entries == Upserted(old(store.entries), period.value.id, currentDate, m, ate,
                                  FinalPrice(m, ate, price), old(store.nextEntryId), now) &&
        dayMeals == Some(store.GetDayMeals(period.value.id, currentDate))
      ensures store.nextEntryId == old(store.nextEntryId) + |store.entries| - |old(store.entries)|
    {
      if period.None? || period.value.id == 0 {
        return;
      }
      var finalPrice := FinalPrice(m, ate, price);
      var r := store.SaveMealEntry(period.value.id, currentDate, m, ate, finalPrice, now);
      if r.Fail? {
        return;
      }
      LoadDayData(store);
    }

    /** `goToPreviousDay`. */
    method GoToPreviousDay()
      modifies this`currentDate
      ensures currentDate == AfterPrevious(old(currentDate), period)
    {
      var newDate := Prev(currentDate);
      if period.Some? && IsDateInPeriod(newDate, period.value) {
        currentDate := newDate;
      }
    }

    /** `goToNextDay`. */
    method GoToNextDay(today: Date)
      modifies this`currentDate
      ensures currentDate == AfterNext(old(currentDate), period, today)
    {
      var newDate := Next(currentDate);
      if IsDateNotInFuture(newDate, today) && period.Some? && IsDateInPeriod(newDate, period.value) {
        currentDate := newDate;
      }
    }
  }

  /** After a tap on a card that is not disabled, the reloaded day shows the
   *  tapped meal with the flipped status. */
  lemma TapThenReloadFlipsCard(es: seq<MealEntry>, ds: seq<DisabledDay>, periodId: int, date: Date,
                               m: MealType, newId: int, now: int)
    requires KeysDistinct(es, EntryKey)
    ensures var before := Find(DayEntries(es, periodId, date), MealIs(m));
      var ev := MealCard.HandleToggle(m, before, false).value;
      var es' := Upserted(es, periodId, date, m, ev.ate, FinalPrice(m, ev.ate, Some(ev.price)), newId, now);
      var after := Find(DayEntries(es', periodId, date), MealIs(m));
      after.Some? &&
      MealCard.Status(after, false) == (if MealCard.Status(before, false) == Ate then NotAte else Ate)
  {
    var k := HasEntryKey(periodId, date, m);
    var before := Find(DayEntries(es, periodId, date), MealIs(m));
    var ev := MealCard.HandleToggle(m, before, false).value;
    var es' := Upserted(es, periodId, date, m, ev.ate, ev.price, newId, now);
    SaveMealEntryUpserts(es, periodId, date, m, ev.ate, ev.price, newId, now);
    DaySlotIsKeyedRow(es, periodId, date, m);
    DaySlotIsKeyedRow(es', periodId, date, m);
    var row := Filter(es', k)[0];
    assert row in Filter(es', k);
    var after := Find(es', k);
    assert after.value in Filter(es', k);
  }
}
