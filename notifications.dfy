/**
 * The notification service without the platform calls: which buttons each
 * notification category offers, what a scheduled meal check or reminder
 * carries, when a reminder fires, and which entry the answer to a
 * notification writes through the store's upsert.
 *
 * The platform's queue of scheduled notifications is recorded by the class
 * `NotificationCenter`; scheduling appends a request and cancelling empties
 * the queue. Delivery and the identifiers the platform hands out are not
 * modelled (the identifiers are a counter here).
 */
module Notifications {
  import opened Wrappers
  import opened Calendar
  import opened Types
  import opened Database
  import MealCard

  /** The three registered categories. */
  datatype Category = MealCheck | DinnerCheck | MealReminder

  function CategoryName(c: Category): string {
    match c
    case MealCheck => "meal-check"
    case DinnerCheck => "dinner-check"
    case MealReminder => "meal-reminder"
  }

  /** The action identifiers `registerNotificationCategories` gives each
   *  category, in button order. */
  function CategoryActions(c: Category): seq<string> {
    match c
    case MealCheck => ["ate", "not_ate"]
    case DinnerCheck => ["ate_default", "ate_alternative", "not_ate"]
    case MealReminder => ["ok"]
  }

  /** The data attached to a notification. */
  datatype Payload = Payload(mealType: Option<MealType>, price: Option<int>, isReminder: bool)

  /** What the user did: tapped the notification itself, or one of its buttons. */
  datatype Action = DefaultTap | Named(id: string)

  /** When a scheduled notification fires: at once, or daily at a time. */
  datatype Trigger = Immediate | Daily(hour: int, minute: int)

  datatype Request = Request(id: int, category: Category, data: Payload, trigger: Trigger)

  /** The price a meal check carries: dinner's default, else the fixed price. */
  function CheckPrice(m: MealType): int {
    if m == Dinner then DinnerDefaultPrice else StandardPrice(m)
  }

  /** Dinner gets the three-button category, the other meals the two-button one. */
  function CheckCategory(m: MealType): Category {
    if m == Dinner then DinnerCheck else MealCheck
  }

  function CheckPayload(m: MealType): Payload {
    Payload(Some(m), Some(CheckPrice(m)), false)
  }

  function ReminderPayload(m: MealType): Payload {
    Payload(Some(m), None, true)
  }

  /** `scheduleReminderNotification`: the meal time minus five minutes,
   *  borrowing an hour and wrapping from hour 0 to hour 23. */
  method ReminderTime(hour: int, minute: int) returns (reminderHour: int, reminderMinute: int)
    ensures 0 <= hour < 24 && 0 <= minute < 60 ==> 0 <= reminderHour < 24 && 0 <= reminderMinute < 60
    ensures 0 <= hour < 24 && 0 <= minute < 60 ==>
      (reminderHour * 60 + reminderMinute) % 1440 == (hour * 60 + minute - 5) % 1440
    ensures minute >= 5 ==> reminderHour == hour && reminderMinute == minute - 5
    ensures minute < 5 ==> reminderMinute == minute + 55 && reminderHour == if hour >= 1 then hour - 1 else 23
  {
    reminderHour := hour;
    reminderMinute := minute - 5;
    if reminderMinute < 0 {
      reminderMinute := 60 + reminderMinute;
      reminderHour := hour - 1;
      if reminderHour < 0 {
        reminderHour := 23;
      }
    }
  }

  /** A response that writes nothing: a reminder, its "ok" button, or a tap
   *  on the notification body. */
  predicate Ignored(action: Action, payload: Payload) {
    payload.isReminder || action == Named("ok") || action == DefaultTap
  }

  /** `MEAL_PRICES[mealType]` as the "ate" answer falls back to it. */
  function AteFallbackPrice(m: MealType): (r: int)
    ensures r != 0
  {
    StandardPrice(m)
  }

  /** The `(ate, price)` pair an answer stands for: "ate" takes the payload's
   *  price unless it is missing or 0, "ate_default" and "ate_alternative"
   *  are dinner's two prices, and every other identifier leaves the initial
   *  (false, 0). */
  function ActionMark(id: string, m: MealType, price: Option<int>): (r: (bool, int))
    ensures r.0 <==> id == "ate" || id == "ate_default" || id == "ate_alternative"
    ensures !r.0 ==> r.1 == 0
    ensures r.0 ==> r.1 != 0
    ensures id == "ate" ==> r == (true, if price.Some? && price.value != 0 then price.value else StandardPrice(m))
    ensures id == "ate_default" ==> r == (true, 7)
    ensures id == "ate_alternative" ==> r == (true, 10)
  {
    if id == "ate" then (true, if price.Some? && price.value != 0 then price.value else AteFallbackPrice(m))
    else if id == "ate_default" then (true, DinnerDefaultPrice)
    else if id == "ate_alternative" then (true, DinnerAlternativePrice)
    else (false, 0)
  }

  /** The row an answer upserts: the active period, the payload's meal kind
   *  and the action's `(ate, price)`. */
  datatype Write = Write(periodId: int, meal: MealType, ate: bool, price: int)

  /** What `handleNotificationResponse` writes, given the active period it reads. */
  function ResponseWrite(active: Option<Period>, action: Action, payload: Payload): (r: Option<Write>)
    ensures r.None? <==>
      Ignored(action, payload) || active.None? || active.value.id == 0 || payload.mealType.None?
    ensures r.Some? ==> r.value.periodId == active.value.id && r.value.meal == payload.mealType.value
    ensures r.Some? ==> (r.value.ate, r.value.price) == ActionMark(action.id, r.value.meal, payload.price)
  {
    if Ignored(action, payload) || active.None? || active.value.id == 0 || payload.mealType.None? then None
    else
      var mark := ActionMark(action.id, payload.mealType.value, payload.price);
      Some(Write(active.value.id, payload.mealType.value, mark.0, mark.1))
  }

  /** `handleNotificationResponse`: decides the answer and writes it for
   *  `today` through `saveMealEntry`; `now` is the database clock. */
  method HandleNotificationResponse(store: Store, action: Action, payload: Payload, today: Date, now: int)
    requires store.Valid()
    modifies store`entries, store`nextEntryId
    ensures store.Valid()
    ensures var w := ResponseWrite(old(store.GetActivePeriod()), action, payload);
      store.entries == if w.None? then old(store.entries)
        else Upserted(old(store.entries), w.value.periodId, today, w.value.meal, w.value.ate, w.value.price,
                      old(store.nextEntryId), now)
    ensures store.nextEntryId == old(store.nextEntryId) + |store.entries| - |old(store.entries)|
  {
    if payload.isReminder || action == Named("ok") {
      return;
    }
    if action == DefaultTap {
      return;
    }
    var period := store.GetActivePeriod();
    if period.None? || period.value.id == 0 || payload.mealType.None? {
      return;
    }
    var meal := payload.mealType.value;
    var ate := false;
    var price := 0;
    if action.id == "ate" {
      ate := true;
      price := if payload.price.Some? && payload.price.value != 0 then payload.price.value else AteFallbackPrice(meal);
    } else if action.id == "ate_default" {
      ate := true;
      price := DinnerDefaultPrice;
    } else if action.id == "ate_alternative" {
      ate := true;
      price := DinnerAlternativePrice;
    } else if action.id == "not_ate" {
      ate := false;
      price := 0;
    }
    var _ := store.SaveMealEntry(period.value.id, today, meal, ate, price, now);
  }

  /** A reminder never writes an entry, whatever the action. */
  lemma ReminderAnswersWriteNothing(active: Option<Period>, action: Action, m: MealType)
    ensures ResponseWrite(active, action, ReminderPayload(m)) == None
    ensures CategoryActions(MealReminder) == ["ok"]
  {
  }

  /** Every button a meal check offers writes the meal for the active
   *  period. The first button stores what tapping an unmarked meal card
   *  stores, the alternative dinner button stores 10, and "not_ate" stores
   *  what tapping an eaten card stores. */
  lemma CheckButtonsAgreeWithMealCard(active: Period, m: MealType, blank: MealEntry)
    requires active.id != 0
    ensures forall id :: id in CategoryActions(CheckCategory(m)) ==>
      ResponseWrite(Some(active), Named(id), CheckPayload(m)).Some? &&
      ResponseWrite(Some(active), Named(id), CheckPayload(m)).value.meal == m
    ensures var w := ResponseWrite(Some(active), Named(CategoryActions(CheckCategory(m))[0]), CheckPayload(m)).value;
      var tap := MealCard.HandleToggle(m, None, false).value;
      w.ate == tap.ate && w.price == tap.price
    ensures var w := ResponseWrite(Some(active), Named("not_ate"), CheckPayload(m)).value;
      var tap := MealCard.HandleToggle(m, Some(blank.(ate := true)), false).value;
      w.ate == tap.ate && w.price == tap.price
    ensures m == Dinner ==>
      ResponseWrite(Some(active), Named("ate_alternative"), CheckPayload(m)).value == Write(active.id, Dinner, true, 10)
  {
    var c := CategoryActions(CheckCategory(m));
    forall id | id in c
      ensures ResponseWrite(Some(active), Named(id), CheckPayload(m)).Some?
    {
      assert id != "ok";
    }
  }

  /** An answer with an identifier no category registers stores "not
   *  eaten" at price 0, as if "not_ate" had been pressed. */
  lemma UnknownActionWritesNotEaten(active: Option<Period>, id: string, payload: Payload)
    requires !Ignored(Named(id), payload) && active.Some? && active.value.id != 0 && payload.mealType.Some?
    requires forall c: Category :: id !in CategoryActions(c)
    ensures ResponseWrite(active, Named(id), payload)
         == ResponseWrite(active, Named("not_ate"), payload)
    ensures ResponseWrite(active, Named(id), payload).value.ate == false
  {
    assert id != "ate" by { assert "ate" in CategoryActions(MealCheck); }
    assert id != "ate_default" by { assert "ate_default" in CategoryActions(DinnerCheck); }
    assert id != "ate_alternative" by { assert "ate_alternative" in CategoryActions(DinnerCheck); }
  }

  /** The platform's queue of scheduled notifications and registered categories. */
  class NotificationCenter {
    var categories: map<string, seq<string>>
    var scheduled: seq<Request>
    var nextId: int

    /** The queue's identifiers are distinct: positive, increasing in
     *  scheduling order, and below the next one handed out. */
    ghost predicate Valid()
      reads this
    {
      1 <= nextId &&
      (forall i :: 0 <= i < |scheduled| ==> 1 <= scheduled[i].id < nextId) &&
      (forall i, j :: 0 <= i < j < |scheduled| ==> scheduled[i].id < scheduled[j].id)
    }

    constructor ()
      ensures Valid()
      ensures categories == map[] && scheduled == [] && nextId == 1
    {
      categories := map[];
      scheduled := [];
      nextId := 1;
    }

    /** `registerNotificationCategories`. */
    method RegisterNotificationCategories()
      modifies this`categories
      ensures categories == old(categories)[CategoryName(MealCheck) := CategoryActions(MealCheck)]
                                           [CategoryName(DinnerCheck) := CategoryActions(DinnerCheck)]
                                           [CategoryName(MealReminder) := CategoryActions(MealReminder)]
      ensures forall c :: CategoryName(c) in categories && categories[CategoryName(c)] == CategoryActions(c)
    {
      categories := categories[CategoryName(MealCheck) := CategoryActions(MealCheck)];
      categories := categories[CategoryName(DinnerCheck) := CategoryActions(DinnerCheck)];
      categories := categories[CategoryName(MealReminder) := CategoryActions(MealReminder)];
    }

    method Schedule(category: Category, data: Payload, trigger: Trigger) returns (id: int)
      requires Valid()
      modifies this`scheduled, this`nextId
      ensures Valid()
      ensures id == old(nextId) && nextId == old(nextId) + 1
      ensures scheduled == old(scheduled) + [Request(id, category, data, trigger)]
    {
      id := nextId;
      scheduled := scheduled + [Request(id, category, data, trigger)];
      nextId := nextId + 1;
    }

    /** `scheduleMealNotification`: a daily check at the meal time. */
    method ScheduleMealNotification(m: MealType, hour: int, minute: int) returns (id: int)
      requires Valid()
      modifies this`scheduled, this`nextId
      ensures Valid()
      ensures id == old(nextId) && nextId == old(nextId) + 1
      ensures scheduled == old(scheduled) + [Request(id, CheckCategory(m), CheckPayload(m), Daily(hour, minute))]
    {
      id := Schedule(CheckCategory(m), CheckPayload(m), Daily(hour, minute));
    }

    /** `scheduleReminderNotification`: a daily reminder five minutes before
     *  the meal time. */
    method ScheduleReminderNotification(m: MealType, hour: int, minute: int) returns (id: int)
      requires Valid()
      modifies this`scheduled, this`nextId
      ensures Valid()
      ensures id == old(nextId) && nextId == old(nextId) + 1
      ensures |scheduled| == |old(scheduled)| + 1 && scheduled[..|old(scheduled)|] == old(scheduled)
      ensures var r := scheduled[|old(scheduled)|];
        r.id == id && r.category == MealReminder && r.data == ReminderPayload(m) && r.trigger.Daily?
      ensures var r := scheduled[|old(scheduled)|];
        0 <= hour < 24 && 0 <= minute < 60 ==>
        0 <= r.trigger.hour < 24 && 0 <= r.trigger.minute < 60 &&
        (r.trigger.hour * 60 + r.trigger.minute + 5) % 1440 == (hour * 60 + minute) % 1440
      ensures minute >= 5 ==> scheduled[|old(scheduled)|].trigger == Daily(hour, minute - 5)
    {
      var rh, rm := ReminderTime(hour, minute);
      id := Schedule(MealReminder, ReminderPayload(m), Daily(rh, rm));
    }

    /** `sendTestMealNotification`: the same check, delivered at once. */
    method SendTestMealNotification(m: MealType)
      requires Valid()
      modifies this`scheduled, this`nextId
      ensures Valid()
      ensures nextId == old(nextId) + 1
      ensures scheduled == old(scheduled) + [Request(old(nextId), CheckCategory(m), CheckPayload(m), Immediate)]
    {
      var _ := Schedule(CheckCategory(m), CheckPayload(m), Immediate);
    }

    /** `sendTestReminderNotification`: a reminder, delivered at once. */
    method SendTestReminderNotification(m: MealType)
      requires Valid()
      modifies this`scheduled, this`nextId
      ensures Valid()
      ensures nextId == old(nextId) + 1
      ensures scheduled == old(scheduled) + [Request(old(nextId), MealReminder, ReminderPayload(m), Immediate)]
    {
      var _ := Schedule(MealReminder, ReminderPayload(m), Immediate);
    }

    /** `cancelAllNotifications`. */
    method CancelAllNotifications()
      requires Valid()
      modifies this`scheduled
      ensures Valid()
      ensures scheduled == []
    {
      scheduled := [];
    }

    /** `getScheduledNotifications`: the pending requests in scheduling
     *  order, no two with the same identifier, every identifier one the
     *  center has already handed out. */
    function GetScheduledNotifications(): (r: seq<Request>)
      requires Valid()
      reads this
      ensures |r| == |scheduled| && forall i :: 0 <= i < |r| ==> r[i] == scheduled[i]
      ensures forall i, j :: 0 <= i < |r| && 0 <= j < |r| && r[i].id == r[j].id ==> i == j
      ensures forall i :: 0 <= i < |r| ==> r[i].id < nextId
    {
      scheduled
    }
  }
}
