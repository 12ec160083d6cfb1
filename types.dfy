/**
 * The records the app stores and displays, and its fixed meal prices.
 * Dates are calendar triples (module Calendar); a price is a whole number of
 * currency units; ids and timestamps are integers.
 */
module Types {
  import opened Wrappers
  import opened Calendar

  /** The three meal kinds. */
  datatype MealType = Breakfast | Lunch | Dinner

  /** A meal card's status; "not eaten" and "not marked" are distinct. */
  datatype MealStatus = Ate | NotAte | NotMarked

  /** A schedule time, written `HH:MM` in the table. */
  datatype TimeOfDay = TimeOfDay(hour: int, minute: int)

  /** One row of `meal_entries`. */
  datatype MealEntry = MealEntry(
    id: int, periodId: int, date: Date, mealType: MealType,
    ate: bool, price: int, createdAt: int)

  /** One row of `periods`; `name` is `None` where the column holds NULL. */
  datatype Period = Period(
    id: int, name: Option<string>, startDate: Date, endDate: Date, isActive: bool)

  /** One row of `schedule`; `dayOfWeek` 0 is Sunday and 6 Saturday. */
  datatype ScheduleItem = ScheduleItem(
    id: int, periodId: int, dayOfWeek: int, mealType: MealType, time: TimeOfDay)

  /** One row of `disabled_days`. */
  datatype DisabledDay = DisabledDay(id: int, periodId: int, date: Date)

  /** What the day view shows: at most one entry per meal kind, the
   *  disabled flag and the day's total. */
  datatype DayMeals = DayMeals(
    date: Date, breakfast: Option<MealEntry>, lunch: Option<MealEntry>,
    dinner: Option<MealEntry>, isDisabled: bool, total: int)

  const BreakfastPrice: int := 5
  const LunchPrice: int := 10
  const DinnerDefaultPrice: int := 7
  const DinnerAlternativePrice: int := 10

  /** `MEAL_PRICES[meal]`, dinner's two-price entry read as its default. */
  function StandardPrice(m: MealType): int {
    match m
    case Breakfast => BreakfastPrice
    case Lunch => LunchPrice
    case Dinner => DinnerDefaultPrice
  }

  predicate WellFormedTime(t: TimeOfDay) {
    0 <= t.hour < 24 && 0 <= t.minute < 60
  }

  /** A schedule row as the type describes it: a weekday in 0..6 and a valid time. */
  predicate WellFormedScheduleItem(it: ScheduleItem) {
    0 <= it.dayOfWeek <= 6 && WellFormedTime(it.time)
  }

  /** The `meal_type` text stored in the tables. */
  function MealTypeName(m: MealType): string {
    match m
    case Breakfast => "breakfast"
    case Lunch => "lunch"
    case Dinner => "dinner"
  }

  /** Reads a `meal_type` column back; any other text names no meal kind. */
  function ParseMealType(s: string): (r: Option<MealType>)
    ensures r.Some? ==> MealTypeName(r.value) == s
  {
    if s == "breakfast" then Some(Breakfast)
    else if s == "lunch" then Some(Lunch)
    else if s == "dinner" then Some(Dinner)
    else None
  }

  /** Every meal kind survives a write to and a read from the table. */
  lemma MealTypeNameRoundTrip(m: MealType)
    ensures ParseMealType(MealTypeName(m)) == Some(m)
  {
    match m
    case Breakfast =>
    case Lunch => assert "lunch" != "breakfast";
    case Dinner => assert "dinner" != "breakfast" && "dinner" != "lunch";
  }

  /** Text order on `meal_type`, as SQLite's default collation compares it. */
  predicate TextLt(a: string, b: string) {
    (|a| == 0 && |b| > 0) ||
    (|a| > 0 && |b| > 0 && (a[0] < b[0] || (a[0] == b[0] && TextLt(a[1..], b[1..]))))
  }

  /** A meal kind's place in `ORDER BY meal_type`: breakfast, dinner, lunch. */
  function MealTypeRank(m: MealType): int {
    match m
    case Breakfast => 0
    case Dinner => 1
    case Lunch => 2
  }

  /** The rank orders meal kinds exactly as their stored names sort. */
  lemma MealTypeRankFollowsNames(a: MealType, b: MealType)
    ensures MealTypeRank(a) < MealTypeRank(b) <==> TextLt(MealTypeName(a), MealTypeName(b))
  {
    var x, y := MealTypeName(a), MealTypeName(b);
    assert x[0] == 'b' || x[0] == 'd' || x[0] == 'l';
    if a == b {
      TextLtIrreflexive(x);
    }
  }

  lemma {:induction false} TextLtIrreflexive(s: string)
    ensures !TextLt(s, s)
  {
    if |s| > 0 {
      TextLtIrreflexive(s[1..]);
    }
  }
}
