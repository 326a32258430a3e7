/** Calendar arithmetic as ECMA-262 section 21.4.1 has it for `Date.UTC` and the `getUTC*`
    accessors. A calendar day is its number of days since 1970-01-01, and a month is its
    index 12 * year + month (month 0 is January). */
module Calendar {

  const MS_PER_DAY := 86_400_000

  predicate Leap(y: int) {
    y % 4 == 0 && (y % 100 != 0 || y % 400 == 0)
  }

  function MonthLength(y: int, m: int): (n: int)
    requires 0 <= m < 12
    ensures 28 <= n <= 31
  {
    if m == 1 then (if Leap(y) then 29 else 28)
    else if m == 3 || m == 5 || m == 8 || m == 10 then 30
    else 31
  }

  function LengthOf(k: int): (n: int)
    ensures 28 <= n <= 31
  {
    MonthLength(k / 12, k % 12)
  }

  /** The first day of month `k`: month lengths summed from January 1970. */
  function MonthStart(k: int): int
    decreases if k >= 12 * 1970 then k - 12 * 1970 else 12 * 1970 - k
  {
    if k == 12 * 1970 then 0
    else if k > 12 * 1970 then MonthStart(k - 1) + LengthOf(k - 1)
    else MonthStart(k + 1) - LengthOf(k)
  }

  /** `Date.UTC(y, m, d)` in days: months and days outside their usual range carry over. */
  function MakeDay(y: int, m: int, d: int): int {
    MonthStart(12 * y + m) + d - 1
  }

  lemma MonthStep(k: int)
    ensures MonthStart(k + 1) == MonthStart(k) + LengthOf(k)
  {
  }

  lemma {:induction false} MonthStartSpread(i: int, j: int)
    requires i <= j
    ensures MonthStart(i) + 28 * (j - i) <= MonthStart(j) <= MonthStart(i) + 31 * (j - i)
    decreases j - i
  {
    if i < j {
      MonthStartSpread(i, j - 1);
      MonthStep(j - 1);
    }
  }

  /** The month a day falls in, found by stepping up from a month that does not start after it. */
  function MonthIndexOf(day: int): (k: int)
    ensures MonthStart(k) <= day < MonthStart(k + 1)
  {
    var below := 12 * 1970 + if day < 0 then day else 0;
    MonthStartSpread(below, 12 * 1970);
    StepUp(day, below)
  }

  function StepUp(day: int, k: int): (r: int)
    requires MonthStart(k) <= day
    ensures MonthStart(r) <= day < MonthStart(r + 1)
    decreases day - MonthStart(k)
  {
    MonthStep(k);
    if day < MonthStart(k + 1) then k else StepUp(day, k + 1)
  }

  lemma MonthIndexUnique(day: int, k: int)
    requires MonthStart(k) <= day < MonthStart(k + 1)
    ensures MonthIndexOf(day) == k
  {
    var r := MonthIndexOf(day);
    if r < k {
      MonthStartSpread(r + 1, k);
    } else if k < r {
      MonthStartSpread(k + 1, r);
    }
  }

  function YearOf(day: int): int { MonthIndexOf(day) / 12 }

  function MonthOf(day: int): (m: int)
    ensures 0 <= m < 12
  {
    MonthIndexOf(day) % 12
  }

  function DateOf(day: int): (d: int)
    ensures 1 <= d <= MonthLength(YearOf(day), MonthOf(day))
  {
    MonthStep(MonthIndexOf(day));
    day - MonthStart(MonthIndexOf(day)) + 1
  }

  /** `lastDayOfMonth`: day 0 of the following month, read back. */
  function LastDayOfMonth(y: int, m: int): int {
    DateOf(MakeDay(y, m + 1, 0))
  }

  /** `addDays` goes through the civil fields and back. */
  function AddDays(day: int, n: int): int {
    MakeDay(YearOf(day), MonthOf(day), DateOf(day) + n)
  }

  /** The accessors invert `Date.UTC`, and so `addDays` is plain day arithmetic. */
  lemma CivilRoundTrip(day: int, n: int)
    ensures MakeDay(YearOf(day), MonthOf(day), DateOf(day)) == day
    ensures AddDays(day, n) == day + n
  {
  }

  lemma CivilFields(y: int, m: int, d: int)
    requires 0 <= m < 12 && 1 <= d <= MonthLength(y, m)
    ensures YearOf(MakeDay(y, m, d)) == y && MonthOf(MakeDay(y, m, d)) == m && DateOf(MakeDay(y, m, d)) == d
  {
    hide MonthStart, MonthIndexOf, MonthLength;
    MonthFields(y, m);
    MonthStep(12 * y + m);
    MonthIndexUnique(MakeDay(y, m, d), 12 * y + m);
  }

  lemma MonthFields(y: int, m: int)
    requires 0 <= m < 12
    ensures (12 * y + m) / 12 == y && (12 * y + m) % 12 == m
  {
  }

  /** Day 0 of the following month is the month's last day. */
  lemma DayZero(y: int, m: int)
    ensures MakeDay(y, m + 1, 0) == MakeDay(y, m, LengthOf(12 * y + m)) == MonthStart(12 * y + m + 1) - 1
  {
    hide MonthStart, LengthOf;
    MonthStep(12 * y + m);
  }

  lemma LastDayIsLength(y: int, m: int)
    requires 0 <= m < 12
    ensures LastDayOfMonth(y, m) == MonthLength(y, m) == LengthOf(12 * y + m)
    ensures MakeDay(y, m, LastDayOfMonth(y, m)) == MonthStart(12 * y + m + 1) - 1
  {
    hide MonthStart, MonthIndexOf, MonthLength, DateOf, MakeDay, YearOf, MonthOf;
    MonthFields(y, m);
    DayZero(y, m);
    CivilFields(y, m, MonthLength(y, m));
  }

  predicate CivilBefore(a: int, b: int) {
    || YearOf(a) < YearOf(b)
    || (YearOf(a) == YearOf(b) && MonthOf(a) < MonthOf(b))
    || (YearOf(a) == YearOf(b) && MonthOf(a) == MonthOf(b) && DateOf(a) < DateOf(b))
  }

  /** Comparing 'YYYY-MM-DD' texts compares (year, month, date) lexicographically, and that
      order is the order of day numbers. */
  lemma DateTextOrder(a: int, b: int)
    ensures CivilBefore(a, b) <==> a < b
  {
    hide MonthStart, MonthIndexOf;
    var i, j := MonthIndexOf(a), MonthIndexOf(b);
    if i < j {
      MonthStartSpread(i + 1, j);
    } else if j < i {
      MonthStartSpread(j + 1, i);
    }
  }
}
