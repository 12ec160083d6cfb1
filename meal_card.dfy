/**
 * One meal card of the day view: the status it shows, the price it shows,
 * and the `onToggle(ate, price)` event a tap emits. The card holds no state
 * of its own; each rule is a function of its props (meal kind, the day's
 * entry or none, and the disabled flag), and an emitted event is an
 * optional result.
 */
module MealCard {
  import opened Wrappers
  import opened Types

  /** The arguments of `onToggle(ate, price)`. */
  datatype ToggleEvent = ToggleEvent(ate: bool, price: int)

  /** `getStatus`: a disabled day shows every meal as not eaten, a meal with
   *  no entry as not marked, and otherwise the entry's `ate` flag. */
  function Status(entry: Option<MealEntry>, isDisabled: bool): MealStatus {
    if isDisabled then NotAte
    else if entry.None? then NotMarked
    else if entry.value.ate then Ate
    else NotAte
  }

  /** The three statuses are told apart exactly by the disabled flag and
   *  the entry: "not marked" is never "not eaten". */
  lemma StatusCases(entry: Option<MealEntry>, isDisabled: bool)
    ensures Status(entry, isDisabled) == Ate <==> !isDisabled && entry.Some? && entry.value.ate
    ensures Status(entry, isDisabled) == NotMarked <==> !isDisabled && entry.None?
    ensures Status(entry, isDisabled) == NotAte <==> isDisabled || (entry.Some? && !entry.value.ate)
  {
  }

  /** `getPrice`: the entry's price for a meal marked eaten on a day that
   *  is not disabled, else 0. */
  function DisplayPrice(entry: Option<MealEntry>, isDisabled: bool): int {
    if isDisabled || entry.None? || !entry.value.ate then 0 else entry.value.price
  }

  /** The displayed price is nonzero only on a card showing "ate", where it
   *  is the entry's price. */
  lemma DisplayPriceFollowsStatus(entry: Option<MealEntry>, isDisabled: bool)
    ensures DisplayPrice(entry, isDisabled) == if Status(entry, isDisabled) == Ate then entry.value.price else 0
  {
  }

  /** `getDefaultPrice`: dinner's default price, else the meal's fixed price. */
  function DefaultPrice(m: MealType): (r: int)
    ensures r == StandardPrice(m)
    ensures m == Breakfast ==> r == 5
    ensures m == Lunch ==> r == 10
    ensures m == Dinner ==> r == 7
  {
    if m == Dinner then DinnerDefaultPrice else StandardPrice(m)
  }

  /** `handleToggle`: nothing on a disabled card; "ate" toggles to
   *  (false, 0); "not eaten" and "not marked" toggle to (true, default). */
  function HandleToggle(m: MealType, entry: Option<MealEntry>, isDisabled: bool): (r: Option<ToggleEvent>)
    ensures r.None? <==> isDisabled
    ensures r.Some? ==> (r.value.ate <==> Status(entry, isDisabled) != Ate)
    ensures r.Some? ==> r.value.price == if r.value.ate then DefaultPrice(m) else 0
  {
    if isDisabled then None
    else if Status(entry, isDisabled) == Ate then Some(ToggleEvent(false, 0))
    else Some(ToggleEvent(true, DefaultPrice(m)))
  }

  /** `handleDinnerPrice`: a price button marks the dinner eaten at that price. */
  function HandleDinnerPrice(price: int, isDisabled: bool): (r: Option<ToggleEvent>)
    ensures r.None? <==> isDisabled
    ensures r.Some? ==> r.value.ate && r.value.price == price
  {
    if isDisabled then None else Some(ToggleEvent(true, price))
  }

  /** The dinner price buttons are shown on a dinner card showing "ate". */
  predicate ShowPriceSelector(m: MealType, entry: Option<MealEntry>, isDisabled: bool) {
    m == Dinner && Status(entry, isDisabled) == Ate && !isDisabled
  }

  /** A price button is highlighted when the entry's price equals its price. */
  predicate PriceHighlighted(entry: Option<MealEntry>, price: int) {
    entry.Some? && entry.value.price == price
  }

  /** The entry a stored event leaves for the card: the old row with the
   *  new `ate` and `price`, or a new row when there was none. */
  function Stored(m: MealType, entry: Option<MealEntry>, ev: ToggleEvent, blank: MealEntry): MealEntry {
    if entry.Some? then entry.value.(ate := ev.ate, price := ev.price)
    else blank.(mealType := m, ate := ev.ate, price := ev.price)
  }

  /** A tap on a card that is not disabled, once stored, flips the card
   *  between "ate" and "not eaten": a "not marked" card becomes "ate". The
   *  card then shows the default price when eaten and 0 otherwise, and a
   *  second tap on the stored card emits the opposite event. */
  lemma ToggleFlipsStatus(m: MealType, entry: Option<MealEntry>, blank: MealEntry)
    ensures var ev := HandleToggle(m, entry, false).value;
      var after := Some(Stored(m, entry, ev, blank));
      Status(after, false) == (if Status(entry, false) == Ate then NotAte else Ate) &&
      DisplayPrice(after, false) == (if Status(entry, false) == Ate then 0 else DefaultPrice(m)) &&
      HandleToggle(m, after, false).value.ate == !ev.ate
  {
  }

  /** The selector is shown only for dinner and never on a disabled card. */
  lemma SelectorOnlyForEatenDinner(m: MealType, entry: Option<MealEntry>, isDisabled: bool)
    ensures ShowPriceSelector(m, entry, isDisabled) <==>
      m == Dinner && !isDisabled && entry.Some? && entry.value.ate
  {
  }

  /** Choosing a dinner price on a shown selector keeps the card at "ate"
   *  and highlights exactly the chosen button of the two. */
  lemma DinnerPriceHighlightsChoice(entry: Option<MealEntry>, choice: int, blank: MealEntry)
    requires ShowPriceSelector(Dinner, entry, false)
    requires choice == DinnerDefaultPrice || choice == DinnerAlternativePrice
    ensures var ev := HandleDinnerPrice(choice, false).value;
      var after := Some(Stored(Dinner, entry, ev, blank));
      ShowPriceSelector(Dinner, after, false) &&
      DisplayPrice(after, false) == choice &&
      PriceHighlighted(after, DinnerDefaultPrice) == (choice == DinnerDefaultPrice) &&
      PriceHighlighted(after, DinnerAlternativePrice) == (choice == DinnerAlternativePrice)
  {
  }

  /** At most one of the two dinner price buttons is highlighted. */
  lemma AtMostOneHighlighted(entry: Option<MealEntry>)
    ensures !(PriceHighlighted(entry, DinnerDefaultPrice) && PriceHighlighted(entry, DinnerAlternativePrice))
  {
  }
}
