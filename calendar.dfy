/**
 * Calendar days as (year, month, day) triples, standing for the app's
 * `YYYY-MM-DD` strings. Comparing two well-formed `YYYY-MM-DD` strings
 * character by character is the same as comparing the triples
 * lexicographically, which is what `DateLe` does. Stepping a day forward or
 * back and shifting by whole months follow JavaScript's `Date`, which
 * normalises an out-of-range day or month into the next one.
 */
module Calendar {

  datatype Date = Date(year: int, month: int, day: int)

  predicate IsLeapYear(y: int) {
    y % 4 == 0 && (y % 100 != 0 || y % 400 == 0)
  }

  /** The Gregorian length of month `m` (1..12) of year `y`. */
  function DaysInMonth(y: int, m: int): (n: int)
    ensures 28 <= n <= 31
  {
    if m == 2 then (if IsLeapYear(y) then 29 else 28)
    else if m == 4 || m == 6 || m == 9 || m == 11 then 30
    else 31
  }

  /** A date that names a real calendar day. */
  predicate ValidDate(d: Date) {
    1 <= d.month <= 12 && 1 <= d.day <= DaysInMonth(d.year, d.month)
  }

  /** `a <= b` as `YYYY-MM-DD` strings: year, then month, then day. */
  predicate DateLe(a: Date, b: Date) {
    a.year < b.year ||
    (a.year == b.year && (a.month < b.month || (a.month == b.month && a.day <= b.day)))
  }

  predicate DateLt(a: Date, b: Date) {
    DateLe(a, b) && a != b
  }

  lemma DateLeIsTotalOrder(a: Date, b: Date, c: Date)
    ensures DateLe(a, a)
    ensures DateLe(a, b) || DateLe(b, a)
    ensures DateLe(a, b) && DateLe(b, a) ==> a == b
    ensures DateLe(a, b) && DateLe(b, c) ==> DateLe(a, c)
  {
  }

  /** The (year, month) pair `k` months after month `m` of year `y`, as
   *  `new Date(y, m - 1 + k, ...)` normalises an out-of-range month. */
  function ShiftMonth(y: int, m: int, k: int): (r: (int, int))
    ensures 1 <= r.1 <= 12
    ensures r.0 * 12 + r.1 == y * 12 + m + k
  {
    var total := y * 12 + (m - 1) + k;
    (total / 12, total % 12 + 1)
  }

  /** The day after `d`: `date.setDate(date.getDate() + 1)`. */
  function Next(d: Date): Date {
    if d.day < DaysInMonth(d.year, d.month) then Date(d.year, d.month, d.day + 1)
    else if d.month < 12 then Date(d.year, d.month + 1, 1)
    else Date(d.year + 1, 1, 1)
  }

  /** The day before `d`: `date.setDate(date.getDate() - 1)`. */
  function Prev(d: Date): Date {
    if d.day > 1 then Date(d.year, d.month, d.day - 1)
    else if d.month > 1 then Date(d.year, d.month - 1, DaysInMonth(d.year, d.month - 1))
    else Date(d.year - 1, 12, 31)
  }

  /** `Next` moves to a later valid day and nothing lies strictly between. */
  lemma NextIsSuccessor(d: Date, x: Date)
    requires ValidDate(d)
    ensures ValidDate(Next(d)) && DateLt(d, Next(d))
    ensures ValidDate(x) && DateLt(d, x) ==> DateLe(Next(d), x)
  {
  }

  /** `Prev` moves to an earlier valid day and nothing lies strictly between. */
  lemma PrevIsPredecessor(d: Date, x: Date)
    requires ValidDate(d)
    ensures ValidDate(Prev(d)) && DateLt(Prev(d), d)
    ensures ValidDate(x) && DateLt(x, d) ==> DateLe(x, Prev(d))
  {
  }

  /** Stepping forward then back, or back then forward, returns to the same day. */
  lemma PrevNextInverse(d: Date)
    requires ValidDate(d)
    ensures Prev(Next(d)) == d
    ensures Next(Prev(d)) == d
  {
  }

  /** `date.setMonth(date.getMonth() + k)`: the day of the month is kept, and a
   *  day past the end of the target month spills into the month after it. */
  function AddMonths(d: Date, k: int): (r: Date)
    requires ValidDate(d)
    ensures ValidDate(r)
    ensures var (y, m) := ShiftMonth(d.year, d.month, k);
      (r == Date(y, m, d.day)) || (d.day > DaysInMonth(y, m) && r.day == d.day - DaysInMonth(y, m) && r.day <= 3)
    ensures var (y, m) := ShiftMonth(d.year, d.month, k);
      d.day > DaysInMonth(y, m) ==> r.year * 12 + r.month == y * 12 + m + 1
  {
    var (y, m) := ShiftMonth(d.year, d.month, k);
    if d.day <= DaysInMonth(y, m) then Date(y, m, d.day)
    else
      var (y', m') := ShiftMonth(y, m, 1);
      Date(y', m', d.day - DaysInMonth(y, m))
  }

  /** One month back from a valid day is strictly earlier and one month
   *  forward strictly later, whatever spill-over happens. */
  lemma AddOneMonthBrackets(d: Date)
    requires ValidDate(d)
    ensures DateLt(AddMonths(d, -1), d)
    ensures DateLt(d, AddMonths(d, 1))
  {
    var (yb, mb) := ShiftMonth(d.year, d.month, -1);
    if d.month == 1 {
      assert yb * 12 + mb == d.year * 12;
      assert yb == d.year - 1 && mb == 12;
    } else {
      assert yb == d.year && mb == d.month - 1;
    }
    var (ya, ma) := ShiftMonth(d.year, d.month, 1);
    if d.month == 12 {
      assert ya == d.year + 1 && ma == 1;
    } else {
      assert ya == d.year && ma == d.month + 1;
    }
  }
}
