/**
 * Calendar dates as (year, month, day) triples, the birthday-adjusted age that both client
 * components compute, and date-fns' `subYears` that the candidate search uses.
 */
module Dates {

  /** A calendar date. `month` is 1-based; JavaScript's 0-based `getMonth()` only shifts both sides of every comparison below. */
  datatype Date = Date(year: int, month: int, day: int)

  /** `a` is on or before `b` in calendar order. */
  predicate OnOrBefore(a: Date, b: Date) {
    || a.year < b.year
    || (a.year == b.year && a.month < b.month)
    || (a.year == b.year && a.month == b.month && a.day <= b.day)
  }

  /** The date `n` years after `birth`, on the same month and day: the n-th birthday. */
  function Anniversary(birth: Date, n: int): Date {
    Date(birth.year + n, birth.month, birth.day)
  }

  /**
   * `calculateAge`: the difference of the years, minus one when this year's birthday (month, day)
   * has not arrived yet.
   */
  function Age(today: Date, birth: Date): int {
    var age := today.year - birth.year;
    var m := today.month - birth.month;
    if m < 0 || (m == 0 && today.day < birth.day) then age - 1 else age
  }

  /** The age is at least `n` exactly when the n-th birthday is today or already past. */
  lemma {:induction false} AgeAtLeastIff(today: Date, birth: Date, n: int)
    ensures Age(today, birth) >= n <==> OnOrBefore(Anniversary(birth, n), today)
  {
    if today.month < birth.month || (today.month == birth.month && today.day < birth.day) {
      assert Age(today, birth) == today.year - birth.year - 1;
    } else {
      assert Age(today, birth) == today.year - birth.year;
    }
  }

  /** The age is exactly `n` when the n-th birthday has come and the (n+1)-th has not. */
  lemma {:induction false} AgeIsCompletedYears(today: Date, birth: Date)
    ensures OnOrBefore(Anniversary(birth, Age(today, birth)), today)
    ensures !OnOrBefore(Anniversary(birth, Age(today, birth) + 1), today)
  {
    AgeAtLeastIff(today, birth, Age(today, birth));
    AgeAtLeastIff(today, birth, Age(today, birth) + 1);
  }

  predicate IsLeapYear(y: int) {
    y % 4 == 0 && (y % 100 != 0 || y % 400 == 0)
  }

  /** date-fns `subYears`: the same month and day `n` years earlier, with 29 February clamped to the 28th in a common year. */
  function SubYears(d: Date, n: int): (r: Date)
    ensures r.year == d.year - n && r.month == d.month
    ensures r.day == d.day || (d.month == 2 && d.day == 29 && r.day == 28 && !IsLeapYear(r.year))
  {
    var y := d.year - n;
    if d.month == 2 && d.day == 29 && !IsLeapYear(y) then Date(y, 2, 28) else Date(y, d.month, d.day)
  }

  /** Away from the 29 February clamp, `dob <= subYears(today, n)` says exactly that the person is at least `n`. */
  lemma {:induction false} SubYearsBoundIsAge(today: Date, dob: Date, n: int)
    requires !(today.month == 2 && today.day == 29)
    ensures OnOrBefore(dob, SubYears(today, n)) <==> Age(today, dob) >= n
  {
    AgeAtLeastIff(today, dob, n);
  }
}
