/** Period windows: the v1 bounds and the v2 windows of card caps and milestones.
    An instant is a number of milliseconds since 1970-01-01T00:00Z. */
module Cycles {
  import opened Basics
  import opened Calendar

  datatype Period = StatementCycle | CalendarMonth | Quarter | HalfYear | Annual | Lifetime

  datatype Anchor = NoAnchor | CardAnniversary | CalendarYear | FiscalYear | StatementAnchor

  datatype Bounds = Bounds(start: int, end: int)

  datatype Window = Window(start: int, end: int, approximate: bool)

  datatype WindowOptions = WindowOptions(statementDay: Option<int>, anchor: Anchor, anchorDate: Option<int>,
                                         anchorApproximate: bool, windowDays: Option<int>)

  const IST_OFFSET_MS := (5 * 60 + 30) * 60 * 1000

  /** 1970-01-01 and 9999-12-31. */
  const LIFETIME_START := 0
  const LIFETIME_END := 2_932_896

  function UtcDay(ms: int): int { ms / MS_PER_DAY }

  /** The India calendar day of an instant. */
  function IstDay(ms: int): int { UtcDay(ms + IST_OFFSET_MS) }

  /** Midnight UTC of a day: what a bare 'YYYY-MM-DD' denotes. */
  function MidnightOf(day: int): int { day * MS_PER_DAY }

  // ---- the bounds, branch by branch ------------------------------------------------

  function CalendarMonthBounds(ref: int): Bounds {
    var y, m := YearOf(UtcDay(ref)), MonthOf(UtcDay(ref));
    Bounds(MakeDay(y, m, 1), MakeDay(y, m, LastDayOfMonth(y, m)))
  }

  function CalendarQuarterBounds(ref: int): Bounds {
    var y, q := YearOf(UtcDay(ref)), MonthOf(UtcDay(ref)) / 3 * 3;
    Bounds(MakeDay(y, q, 1), MakeDay(y, q + 2, LastDayOfMonth(y, q + 2)))
  }

  function CalendarHalfYearBounds(ref: int): Bounds {
    var y, h := YearOf(UtcDay(ref)), if MonthOf(UtcDay(ref)) < 6 then 0 else 6;
    Bounds(MakeDay(y, h, 1), MakeDay(y, h + 5, LastDayOfMonth(y, h + 5)))
  }

  function CalendarYearBounds(ref: int): Bounds {
    var y := YearOf(UtcDay(ref));
    Bounds(MakeDay(y, 0, 1), MakeDay(y, 11, 31))
  }

  /** 1 April to 31 March. */
  function FiscalYearBounds(ref: int): Bounds {
    var y := YearOf(UtcDay(ref));
    var startYear := if MonthOf(UtcDay(ref)) >= 3 then y else y - 1;
    Bounds(MakeDay(startYear, 3, 1), MakeDay(startYear + 1, 2, 31))
  }

  function AnniversaryYearBounds(ref: int, anchorDate: int): Bounds {
    var month, day := MonthOf(anchorDate), DateOf(anchorDate);
    var thisYear := YearOf(UtcDay(ref));
    var startYear := if ref < MidnightOf(MakeDay(thisYear, month, day)) then thisYear - 1 else thisYear;
    Bounds(MakeDay(startYear, month, day), MakeDay(startYear + 1, month, day - 1))
  }

  /** The v1 statement cycle, still used for fee waivers. */
  function StatementCycleBounds(ref: int, statementDay: Option<int>): Bounds {
    match statementDay
    case None => CalendarMonthBounds(ref)
    case Some(s) =>
      if s == 0 then CalendarMonthBounds(ref) else
      var y, m, day := YearOf(UtcDay(ref)), MonthOf(UtcDay(ref)), DateOf(UtcDay(ref));
      var startMonth := if day < s then (if m == 0 then 11 else m - 1) else m;
      var startYear := if day < s && m == 0 then y - 1 else y;
      var endMonth := if startMonth == 11 then 0 else startMonth + 1;
      var endYear := if startMonth == 11 then startYear + 1 else startYear;
      var clampedEnd := Min(s, LastDayOfMonth(endYear, endMonth)) - 1;
      Bounds(MakeDay(startYear, startMonth, Min(s, LastDayOfMonth(startYear, startMonth))),
             MakeDay(endYear, endMonth, Max(clampedEnd, 1)))
  }

  function PeriodBounds(period: Period, ref: int, statementDay: Option<int>, anchor: Anchor,
                        anchorDate: Option<int>): Bounds {
    match period
    case Lifetime => Bounds(LIFETIME_START, LIFETIME_END)
    case StatementCycle => StatementCycleBounds(ref, statementDay)
    case CalendarMonth => CalendarMonthBounds(ref)
    case Quarter => CalendarQuarterBounds(ref)
    case HalfYear => CalendarHalfYearBounds(ref)
    case Annual =>
      if anchor == CardAnniversary && anchorDate.Some? then AnniversaryYearBounds(ref, anchorDate.value)
      else if anchor == FiscalYear then FiscalYearBounds(ref)
      else if anchor == StatementAnchor then StatementCycleBounds(ref, statementDay)
      else CalendarYearBounds(ref)
  }

  /** The statement day of a month, clamped to the month; `m` may run past 0..11. */
  function StatementDateIn(year: int, m: int, statementDay: int): int {
    var yy, mm := year + m / 12, m % 12;
    MakeDay(yy, mm, Min(statementDay, LastDayOfMonth(yy, mm)))
  }

  function StatementCycleBoundsV2(ref: int, statementDay: int): Bounds {
    var y, m := YearOf(UtcDay(ref)), MonthOf(UtcDay(ref));
    var endMonth := if UtcDay(ref) <= StatementDateIn(y, m, statementDay) then m else m + 1;
    Bounds(AddDays(StatementDateIn(y, endMonth - 1, statementDay), 1), StatementDateIn(y, endMonth, statementDay))
  }

  function UsableStatementDay(statementDay: Option<int>): (r: Option<int>)
    ensures r.Some? ==> 1 <= r.value <= 31
  {
    if statementDay.Some? && statementDay.value >= 1 then Some(Min(statementDay.value, 31)) else None
  }

  function WithFlag(b: Bounds, approximate: bool): Window { Window(b.start, b.end, approximate) }

  /** `windowBoundsV2`: None when a welcome window does not contain the day. */
  function WindowBoundsV2(period: Period, occurred: int, o: WindowOptions): Option<Window> {
    var ref := occurred + IST_OFFSET_MS;
    var statementDay := UsableStatementDay(o.statementDay);
    if o.windowDays.Some? then
      if o.windowDays.value <= 0 || o.anchorDate.None? then None else
      var start := o.anchorDate.value;
      var end := AddDays(start, o.windowDays.value - 1);
      if UtcDay(ref) < start || UtcDay(ref) > end then None
      else Some(Window(start, end, o.anchorApproximate))
    else if period == Annual && o.anchor == CardAnniversary then
      if o.anchorDate.None? then Some(WithFlag(CalendarYearBounds(ref), true))
      else Some(WithFlag(AnniversaryYearBounds(ref, o.anchorDate.value), o.anchorApproximate))
    else if period == StatementCycle || (period == Annual && o.anchor == StatementAnchor) then
      if statementDay.None? then Some(WithFlag(CalendarMonthBounds(ref), true))
      else Some(WithFlag(StatementCycleBoundsV2(ref, statementDay.value), false))
    else Some(WithFlag(PeriodBounds(period, ref, None, o.anchor, None), false))
  }

  // ---- tiling ------------------------------------------------------------------------

  /** A recurring window family, by the sequence of days on which its windows start. */
  datatype Cycle = Months(step: int, offset: int) | Statements(day: int) | Anniversaries(month: int, date: int)

  predicate WellFormedCycle(c: Cycle) {
    match c
    case Months(step, _) => step >= 1
    case Statements(day) => 1 <= day <= 31
    case Anniversaries(month, date) => 0 <= month < 12 && 1 <= date <= 31
  }

  function StatementDate(k: int, day: int): int {
    MonthStart(k) + Min(day, LengthOf(k)) - 1
  }

  function Boundary(c: Cycle, k: int): int {
    match c
    case Months(step, offset) => MonthStart(step * k + offset)
    case Statements(day) => StatementDate(k - 1, day) + 1
    case Anniversaries(month, date) => MakeDay(k, month, date)
  }

  /** The family `WindowBoundsV2` draws from; None for a lifetime or a welcome window. */
  function CycleOf(period: Period, o: WindowOptions): (c: Option<Cycle>)
    ensures c.Some? ==> WellFormedCycle(c.value)
  {
    var statementDay := UsableStatementDay(o.statementDay);
    if o.windowDays.Some? || period == Lifetime then None
    else if period == Annual && o.anchor == CardAnniversary && o.anchorDate.Some? then
      assert DateOf(o.anchorDate.value) <= 31;
      Some(Anniversaries(MonthOf(o.anchorDate.value), DateOf(o.anchorDate.value)))
    else if period == StatementCycle || (period == Annual && o.anchor == StatementAnchor) then
      if statementDay.None? then Some(Months(1, 0)) else Some(Statements(statementDay.value))
    else match period
      case CalendarMonth => Some(Months(1, 0))
      case Quarter => Some(Months(3, 0))
      case HalfYear => Some(Months(6, 0))
      case _ => if o.anchor == FiscalYear then Some(Months(12, 3)) else Some(Months(12, 0))
  }

  lemma BoundaryStep(c: Cycle, k: int)
    requires WellFormedCycle(c)
    ensures Boundary(c, k) < Boundary(c, k + 1)
  {
    match c
    case Months(step, offset) =>
      assert step * (k + 1) + offset == step * k + offset + step;
      MonthStartSpread(step * k + offset, step * (k + 1) + offset);
    case Statements(day) =>
      MonthStep(k - 1);
    case Anniversaries(month, date) =>
      MonthStartSpread(12 * k + month, 12 * (k + 1) + month);
  }

  lemma {:induction false} BoundaryIncreasing(c: Cycle, i: int, j: int)
    requires WellFormedCycle(c) && i < j
    ensures Boundary(c, i) < Boundary(c, j)
    decreases j - i
  {
    BoundaryStep(c, j - 1);
    if i < j - 1 {
      BoundaryIncreasing(c, i, j - 1);
    }
  }

  /** The window of an instant is one cell of its family, the cell its India day lies in. */
  lemma WindowIsCell(period: Period, occurred: int, o: WindowOptions) returns (k: int)
    requires CycleOf(period, o).Some?
    ensures WindowBoundsV2(period, occurred, o).Some?
    ensures var w, c := WindowBoundsV2(period, occurred, o).value, CycleOf(period, o).value;
      && w.start == Boundary(c, k) && w.end == Boundary(c, k + 1) - 1
      && w.start <= IstDay(occurred) <= w.end
  {
    hide MonthStart, MonthIndexOf;
    hide CalendarMonthBounds, CalendarQuarterBounds, CalendarHalfYearBounds, CalendarYearBounds, FiscalYearBounds;
    hide AnniversaryYearBounds, StatementCycleBoundsV2, StatementDate, MakeDay;
    var c, ref := CycleOf(period, o).value, occurred + IST_OFFSET_MS;
    match c {
      case Months(step, offset) =>
        MonthsFamily(period, occurred, o);
        k := MonthsCell(c, ref);
      case Statements(s) => k := StatementCell(ref, s);
      case Anniversaries(month, date) => k := AnniversaryCell(ref, o.anchorDate.value);
    }
  }

  /** The bounds of the families that count months. */
  function MonthsBounds(c: Cycle, ref: int): Bounds
    requires c.Months?
  {
    if c.step == 1 then CalendarMonthBounds(ref)
    else if c.step == 3 then CalendarQuarterBounds(ref)
    else if c.step == 6 then CalendarHalfYearBounds(ref)
    else if c.offset == 3 then FiscalYearBounds(ref)
    else CalendarYearBounds(ref)
  }

  lemma MonthsFamily(period: Period, occurred: int, o: WindowOptions)
    requires CycleOf(period, o).Some? && CycleOf(period, o).value.Months?
    ensures WindowBoundsV2(period, occurred, o).Some?
    ensures var w, c := WindowBoundsV2(period, occurred, o).value, CycleOf(period, o).value;
      && w == WithFlag(MonthsBounds(c, occurred + IST_OFFSET_MS), w.approximate)
      && c in {Months(1, 0), Months(3, 0), Months(6, 0), Months(12, 3), Months(12, 0)}
  {
    hide CalendarMonthBounds, CalendarQuarterBounds, CalendarHalfYearBounds, CalendarYearBounds, FiscalYearBounds;
    hide AnniversaryYearBounds, StatementCycleBoundsV2, AddDays, YearOf, MonthOf, DateOf;
  }

  lemma MonthsCell(c: Cycle, ref: int) returns (k: int)
    requires c in {Months(1, 0), Months(3, 0), Months(6, 0), Months(12, 3), Months(12, 0)}
    ensures var b := MonthsBounds(c, ref);
      b.start == Boundary(c, k) <= UtcDay(ref) <= b.end == Boundary(c, k + 1) - 1
  {
    hide MonthStart, MonthIndexOf, UtcDay, YearOf, MonthOf, LastDayOfMonth;
    hide CalendarMonthBounds, CalendarQuarterBounds, CalendarHalfYearBounds, CalendarYearBounds, FiscalYearBounds;
    var day := UtcDay(ref);
    var i := MonthIndexOf(day);
    if c.step == 1 {
      k := i;
      MonthBounds(ref);
    } else if c.step == 3 {
      k := i / 3;
      QuarterCell(ref);
    } else if c.step == 6 {
      k := i / 6;
      HalfYearCell(ref);
    } else if c.offset == 3 {
      k := if MonthOf(day) >= 3 then YearOf(day) else YearOf(day) - 1;
      FiscalCell(ref);
    } else {
      k := YearOf(day);
      YearCell(ref);
    }
  }

  lemma MonthBounds(ref: int)
    ensures var b, k := CalendarMonthBounds(ref), MonthIndexOf(UtcDay(ref));
      b.start == MonthStart(k) && b.end == MonthStart(k + 1) - 1
  {
    hide MonthStart, MonthIndexOf;
    var k := MonthIndexOf(UtcDay(ref));
    LastDayIsLength(k / 12, k % 12);
    MonthStep(k);
  }

  lemma QuarterCell(ref: int)
    ensures var b, k := CalendarQuarterBounds(ref), MonthIndexOf(UtcDay(ref)) / 3;
      b.start == MonthStart(3 * k) <= UtcDay(ref) <= b.end == MonthStart(3 * (k + 1)) - 1
  {
    hide MonthStart, MonthIndexOf, UtcDay, LastDayOfMonth;
    var day := UtcDay(ref);
    var i, q := MonthIndexOf(day), MonthOf(day) / 3 * 3;
    BlockStart(i, 3);
    LastDayIsLength(YearOf(day), q + 2);
    MonthStartSpread(12 * YearOf(day) + q, i);
    MonthStartSpread(i + 1, 12 * YearOf(day) + q + 3);
  }

  lemma ThirdIs(i: int, q: int)
    requires 3 * q <= i < 3 * q + 3
    ensures i / 3 == q
  {
  }

  lemma SixthIs(i: int, q: int)
    requires 6 * q <= i < 6 * q + 6
    ensures i / 6 == q
  {
  }

  /** The first month of a month's quarter or half-year. */
  lemma BlockStart(i: int, n: int)
    requires n == 3 || n == 6
    ensures var q := i % 12 / n * n;
      && 0 <= q <= i % 12 < q + n <= 12 && n * (i / n) == 12 * (i / 12) + q <= i < 12 * (i / 12) + q + n
      && n * (i / n + 1) == 12 * (i / 12) + q + n
  {
    var y, m := i / 12, i % 12;
    assert i == 12 * y + m;
    if n == 3 {
      ThirdIs(m, m / 3);
      ThirdIs(i, 4 * y + m / 3);
    } else {
      SixthIs(m, m / 6);
      SixthIs(i, 2 * y + m / 6);
    }
  }

  lemma HalfYearCell(ref: int)
    ensures var b, k := CalendarHalfYearBounds(ref), MonthIndexOf(UtcDay(ref)) / 6;
      b.start == MonthStart(6 * k) <= UtcDay(ref) <= b.end == MonthStart(6 * (k + 1)) - 1
  {
    hide MonthStart, MonthIndexOf, UtcDay, LastDayOfMonth;
    var day := UtcDay(ref);
    var i, h := MonthIndexOf(day), if MonthOf(day) < 6 then 0 else 6;
    BlockStart(i, 6);
    assert MonthOf(day) / 6 * 6 == h;
    LastDayIsLength(YearOf(day), h + 5);
    MonthStartSpread(12 * YearOf(day) + h, i);
    MonthStartSpread(i + 1, 12 * YearOf(day) + h + 6);
  }

  lemma DecemberEnd(y: int)
    ensures MakeDay(y, 11, 31) == MonthStart(12 * (y + 1)) - 1
  {
  }

  lemma YearCell(ref: int)
    ensures var b, y := CalendarYearBounds(ref), YearOf(UtcDay(ref));
      b.start == MonthStart(12 * y) <= UtcDay(ref) <= b.end == MonthStart(12 * (y + 1)) - 1
  {
    hide MonthStart, MonthIndexOf;
    var i, y := MonthIndexOf(UtcDay(ref)), YearOf(UtcDay(ref));
    DecemberEnd(y);
    MonthStartSpread(12 * y, i);
    MonthStartSpread(i + 1, 12 * (y + 1));
  }

  lemma FiscalCell(ref: int)
    ensures var b := FiscalYearBounds(ref);
      var k := if MonthOf(UtcDay(ref)) >= 3 then YearOf(UtcDay(ref)) else YearOf(UtcDay(ref)) - 1;
      b.start == MonthStart(12 * k + 3) <= UtcDay(ref) <= b.end == MonthStart(12 * (k + 1) + 3) - 1
  {
    hide MonthStart, MonthIndexOf;
    var i, y, m := MonthIndexOf(UtcDay(ref)), YearOf(UtcDay(ref)), MonthOf(UtcDay(ref));
    var k := if m >= 3 then y else y - 1;
    assert (12 * (k + 1) + 2) / 12 == k + 1 && (12 * (k + 1) + 2) % 12 == 2;
    MonthStep(12 * (k + 1) + 2);
    MonthStartSpread(12 * k + 3, i);
    MonthStartSpread(i + 1, 12 * (k + 1) + 3);
  }

  lemma StatementDateInIsDate(y: int, m: int, s: int)
    ensures StatementDateIn(y, m, s) == StatementDate(12 * y + m, s)
  {
    hide MonthStart, MonthIndexOf;
    var k := 12 * y + m;
    assert 12 * (y + m / 12) + m % 12 == k;
    assert k / 12 == y + m / 12 && k % 12 == m % 12;
    LastDayIsLength(y + m / 12, m % 12);
  }

  lemma StatementDateInMonth(k: int, s: int)
    requires 1 <= s <= 31
    ensures MonthStart(k) <= StatementDate(k, s) < MonthStart(k + 1)
  {
    hide MonthStart;
    MonthStep(k);
  }

  lemma StatementCell(ref: int, s: int) returns (k: int)
    requires 1 <= s <= 31
    ensures var b := StatementCycleBoundsV2(ref, s);
      b.start == StatementDate(k - 1, s) + 1 <= UtcDay(ref) <= b.end == StatementDate(k, s)
  {
    hide MonthStart, MonthIndexOf, StatementDate, StatementDateIn, AddDays, UtcDay;
    var day := UtcDay(ref);
    var i, y, m := MonthIndexOf(day), YearOf(day), MonthOf(day);
    assert i == 12 * y + m;
    StatementDateInIsDate(y, m, s);
    var endMonth := if day <= StatementDateIn(y, m, s) then m else m + 1;
    k := 12 * y + endMonth;
    StatementDateInIsDate(y, endMonth, s);
    StatementDateInIsDate(y, endMonth - 1, s);
    CivilRoundTrip(StatementDate(k - 1, s), 1);
    StatementDateInMonth(i - 1, s);
    StatementDateInMonth(i + 1, s);
  }

  /** The date `date` of month `month` of year `y`, 29 February becoming 1 March, stays in `y`. */
  lemma AnniversaryInYear(y: int, month: int, date: int)
    requires 0 <= month < 12 && 1 <= date <= (if month == 1 then 29 else MonthLength(1970, month))
    ensures MonthStart(12 * y) <= MakeDay(y, month, date) < MonthStart(12 * (y + 1))
  {
    hide MonthStart, MonthIndexOf;
    MonthStartSpread(12 * y, 12 * y + month);
    assert (12 * y + month) / 12 == y && (12 * y + month) % 12 == month;
    MonthStep(12 * y + month);
    if month < 11 {
      MonthStartSpread(12 * y + month + 2, 12 * y + 12);
      MonthStartSpread(12 * y + month + 1, 12 * y + month + 2);
    }
  }

  lemma AnniversaryCell(ref: int, anchorDate: int) returns (k: int)
    ensures var b, month, date := AnniversaryYearBounds(ref, anchorDate), MonthOf(anchorDate), DateOf(anchorDate);
      b.start == MakeDay(k, month, date) <= UtcDay(ref) <= b.end == MakeDay(k + 1, month, date) - 1
  {
    hide MonthStart, MonthIndexOf;
    var month, date, day := MonthOf(anchorDate), DateOf(anchorDate), UtcDay(ref);
    var i, y := MonthIndexOf(day), YearOf(day);
    var thisYear := MakeDay(y, month, date);
    k := if ref < MidnightOf(thisYear) then y - 1 else y;
    assert ref < MidnightOf(thisYear) <==> day < thisYear;
    MonthStartSpread(12 * y, i);
    MonthStartSpread(i + 1, 12 * (y + 1));
    AnniversaryInYear(y - 1, month, date);
    AnniversaryInYear(y, month, date);
    AnniversaryInYear(y + 1, month, date);
  }

  /** Every recurring v2 window contains the India day it was computed for, is the window of
      every instant of every day in it, and is followed the next day by the next window. */
  lemma WindowsTile(period: Period, occurred: int, o: WindowOptions, other: int)
    requires CycleOf(period, o).Some?
    ensures WindowBoundsV2(period, occurred, o).Some? && WindowBoundsV2(period, other, o).Some?
    ensures var w, v := WindowBoundsV2(period, occurred, o).value, WindowBoundsV2(period, other, o).value;
      && w.start <= IstDay(occurred) <= w.end
      && (w.start <= IstDay(other) <= w.end ==> v == w)
      && (IstDay(other) == w.end + 1 ==> v.start == w.end + 1)
      && (IstDay(other) == w.start - 1 ==> v.end == w.start - 1)
      && (IstDay(other) < w.start ==> v.end < w.start)
  {
    hide MonthStart, MonthIndexOf;
    var c := CycleOf(period, o).value;
    var k := WindowIsCell(period, occurred, o);
    var j := WindowIsCell(period, other, o);
    if j < k {
      if j + 1 < k { BoundaryIncreasing(c, j + 1, k); }
    } else if k < j {
      if k + 1 < j { BoundaryIncreasing(c, k + 1, j); }
    }
    BoundaryStep(c, k);
    BoundaryStep(c, j);
  }

  /** The last days of short months: the cycle opened on the clamped day is already over. */
  predicate PastShortMonth(day: int, s: int) {
    LastDayOfMonth(YearOf(day), MonthOf(day)) < s && DateOf(day) == LastDayOfMonth(YearOf(day), MonthOf(day))
  }

  lemma MonthBefore(i: int)
    ensures (i - 1) / 12 == (if i % 12 == 0 then i / 12 - 1 else i / 12)
    ensures (i - 1) % 12 == if i % 12 == 0 then 11 else i % 12 - 1
    ensures (i + 1) / 12 == (if i % 12 == 11 then i / 12 + 1 else i / 12)
    ensures (i + 1) % 12 == if i % 12 == 11 then 0 else i % 12 + 1
  {
  }

  /** v1's cycle in month starts: it opens in this month or the one before. */
  lemma V1CycleInMonths(ref: int, s: int)
    requires 1 <= s <= 31
    ensures var i, d := MonthIndexOf(UtcDay(ref)), DateOf(UtcDay(ref));
      var j := if d < s then i - 1 else i;
      StatementCycleBounds(ref, Some(s))
      == Bounds(MonthStart(j) + Min(s, LengthOf(j)) - 1, MonthStart(j + 1) + Max(Min(s, LengthOf(j + 1)) - 1, 1) - 1)
  {
    hide MonthStart, MonthIndexOf, LastDayOfMonth, DateOf, UtcDay, LengthOf, MonthLength;
    var i := MonthIndexOf(UtcDay(ref));
    var j := if DateOf(UtcDay(ref)) < s then i - 1 else i;
    MonthBefore(i);
    MonthBefore(j);
    LastDayIsLength(j / 12, j % 12);
    LastDayIsLength((j + 1) / 12, (j + 1) % 12);
    assert 12 * (j / 12) + j % 12 == j && 12 * ((j + 1) / 12) + (j + 1) % 12 == j + 1;
  }

  /** A v1 cycle never starts after its spend, and ends a day before it exactly on the last day of
      a month too short for the statement day. */
  lemma V1CycleNear(ref: int, s: int)
    requires 1 <= s <= 31
    ensures var b := StatementCycleBounds(ref, Some(s));
      && b.start <= UtcDay(ref) <= b.end + 1
      && (UtcDay(ref) > b.end <==> PastShortMonth(UtcDay(ref), s))
  {
    hide MonthStart, MonthIndexOf, StatementCycleBounds, LengthOf, LastDayOfMonth;
    var day := UtcDay(ref);
    var i := MonthIndexOf(day);
    V1CycleInMonths(ref, s);
    LastDayIsLength(YearOf(day), MonthOf(day));
    MonthStep(i - 1);
    MonthStep(i);
    MonthStep(i + 1);
  }

  /** A v1 cycle does not tile, but a spend is never before its window nor more than a day past
      it, so the five-day margin around the windows of a fee-waiver rebuild misses no spend. It is
      past it for a statement cycle only, on the last day of a month too short for its day. */
  lemma V1SpendNearItsWindow(period: Period, ref: int, statementDay: Option<int>)
    requires statementDay.Some? ==> 1 <= statementDay.value <= 31
    requires period == Lifetime ==> LIFETIME_START <= UtcDay(ref) <= LIFETIME_END
    ensures var b := PeriodBounds(period, ref, statementDay, NoAnchor, None);
      && b.start <= UtcDay(ref) <= b.end + 1
      && (UtcDay(ref) > b.end <==>
            period == StatementCycle && statementDay.Some? && PastShortMonth(UtcDay(ref), statementDay.value))
  {
    hide MonthStart, MonthIndexOf, PastShortMonth, UtcDay, YearOf, MonthOf, DateOf;
    hide CalendarMonthBounds, CalendarQuarterBounds, CalendarHalfYearBounds, CalendarYearBounds;
    match period {
      case Lifetime =>
      case CalendarMonth => MonthBounds(ref);
      case Quarter => QuarterCell(ref);
      case HalfYear => HalfYearCell(ref);
      case Annual => YearCell(ref);
      case StatementCycle =>
        MonthBounds(ref);
        if statementDay.Some? {
          V1CycleNear(ref, statementDay.value);
        }
    }
  }

  // ---- v1 bounds beside v2 windows -------------------------------------------------------

  lemma BoundaryOnce(c: Cycle, i: int, j: int)
    requires WellFormedCycle(c) && Boundary(c, i) == Boundary(c, j)
    ensures i == j
  {
    if i < j {
      BoundaryIncreasing(c, i, j);
    } else if j < i {
      BoundaryIncreasing(c, j, i);
    }
  }

  /** A v1 statement cycle starts on a statement day, a v2 one on the day after. */
  lemma StatementStartsDiffer(i: int, j: int, s: int)
    requires 1 <= s <= 31
    ensures StatementDate(j, s) != StatementDate(i, s) + 1
  {
    hide MonthStart, MonthIndexOf;
    StatementDateInMonth(i, s);
    StatementDateInMonth(j, s);
    MonthStep(i);
    MonthStep(j);
    if i < j {
      MonthStartSpread(i + 1, j);
    } else if j < i {
      MonthStartSpread(j + 1, i);
    }
  }

  /** A month that starts where another does. */
  lemma MonthOnce(i: int, j: int)
    requires MonthStart(i) == MonthStart(j)
    ensures i == j
  {
    hide MonthStart;
    if i < j {
      MonthStartSpread(i, j);
    } else if j < i {
      MonthStartSpread(j, i);
    }
  }

  /** No yearly v2 window that starts with a calendar year ends after it. */
  lemma WithinYear(period: Period, o: WindowOptions, k: int, y: int)
    requires period == Annual && CycleOf(period, o).Some? && Boundary(CycleOf(period, o).value, k) == MonthStart(12 * y)
    ensures Boundary(CycleOf(period, o).value, k + 1) <= MonthStart(12 * (y + 1))
  {
    hide MonthStart, MonthIndexOf, StatementDate, LengthOf;
    match CycleOf(period, o).value {
      case Months(step, offset) =>
        MonthOnce(step * k + offset, 12 * y);
        MonthStartSpread(step * (k + 1) + offset, 12 * (y + 1));
      case Statements(s) =>
        StatementDateInMonth(k - 1, s);
        StatementDateInMonth(k, s);
        if 12 * y < k {
          MonthStartSpread(12 * y, k - 1);
        } else if k < 12 * y {
          MonthStartSpread(k + 1, 12 * y);
          MonthStartSpread(k, k + 1);
        }
        MonthStartSpread(12 * y + 1, 12 * (y + 1));
      case Anniversaries(month, date) =>
        AnniversaryInYear(k, month, date);
        if k < y {
          MonthStartSpread(12 * (k + 1), 12 * y);
        } else if y < k {
          MonthStartSpread(12 * (y + 1), 12 * k);
          MonthStartSpread(12 * y, 12 * (y + 1));
        }
        MonthStartSpread(12 * y, 12 * y + month);
    }
  }

  lemma V1SameFamily(period: Period, ref: int, o: WindowOptions) returns (k: int)
    requires o.windowDays.None? && period != Lifetime && period != Annual
    requires period == StatementCycle ==> UsableStatementDay(o.statementDay).None? && o.statementDay.None?
    ensures CycleOf(period, o).Some?
    ensures var b, c := PeriodBounds(period, ref, o.statementDay, NoAnchor, None), CycleOf(period, o).value;
      b.start == Boundary(c, k) && b.end == Boundary(c, k + 1) - 1
  {
    hide MonthStart, MonthIndexOf, CalendarMonthBounds, CalendarQuarterBounds, CalendarHalfYearBounds;
    k := MonthsCell(CycleOf(period, o).value, ref);
  }

  lemma CycleThere(period: Period, o: WindowOptions)
    requires o.windowDays.None? && period != Lifetime
    ensures CycleOf(period, o).Some?
  {
  }

  lemma V1StatementStart(ref: int, s: int, k: int)
    requires 1 <= s <= 31
    ensures StatementCycleBounds(ref, Some(s)).start != Boundary(Statements(s), k)
  {
    hide StatementCycleBounds, MonthStart, MonthIndexOf, DateOf;
    V1CycleInMonths(ref, s);
    var i := MonthIndexOf(UtcDay(ref));
    var j := if DateOf(UtcDay(ref)) < s then i - 1 else i;
    assert StatementCycleBounds(ref, Some(s)).start == StatementDate(j, s);
    StatementStartsDiffer(k - 1, j, s);
  }

  lemma V1YearEnds(ref: int, o: WindowOptions, k: int)
    requires o.windowDays.None? && CycleOf(Annual, o).Some?
    ensures var b, c := CalendarYearBounds(ref), CycleOf(Annual, o).value;
      b.start == Boundary(c, k) ==> Boundary(c, k + 1) - 1 <= b.end
  {
    hide Boundary, CalendarYearBounds, MonthStart, CycleOf;
    YearCell(ref);
    if Boundary(CycleOf(Annual, o).value, k) == MonthStart(12 * YearOf(UtcDay(ref))) {
      WithinYear(Annual, o, k, YearOf(UtcDay(ref)));
    }
  }

  lemma V1SameEnds(period: Period, ref: int, o: WindowOptions, k: int)
    requires o.windowDays.None? && period != Lifetime && period != Annual && CycleOf(period, o).Some?
    requires period == StatementCycle ==> UsableStatementDay(o.statementDay).None? && o.statementDay.None?
    ensures var b, c := PeriodBounds(period, ref, o.statementDay, NoAnchor, None), CycleOf(period, o).value;
      b.start == Boundary(c, k) ==> b.end == Boundary(c, k + 1) - 1
  {
    var j := V1SameFamily(period, ref, o);
    var c := CycleOf(period, o).value;
    hide Boundary, CycleOf, PeriodBounds;
    if Boundary(c, j) == Boundary(c, k) {
      BoundaryOnce(c, j, k);
    }
  }

  /** Where a window of the v1 path starts with a v2 window of the same period, it ends no earlier. */
  lemma V1EndsNoEarlier(period: Period, occurred: int, o: WindowOptions, ref: int)
    requires o.windowDays.None? && (o.statementDay.Some? ==> 1 <= o.statementDay.value <= 31)
    ensures WindowBoundsV2(period, occurred, o).Some?
    ensures var w, b := WindowBoundsV2(period, occurred, o).value,
                        PeriodBounds(period, ref, o.statementDay, NoAnchor, None);
      w.start == b.start ==> w.end <= b.end
  {
    if period != Lifetime {
      CycleThere(period, o);
      var k := WindowIsCell(period, occurred, o);
      hide WindowBoundsV2, Boundary, CalendarYearBounds, StatementCycleBounds;
      if period == Annual {
        V1YearEnds(ref, o, k);
      } else if period == StatementCycle && o.statementDay.Some? {
        V1StatementStart(ref, o.statementDay.value, k);
      } else {
        hide PeriodBounds, CycleOf;
        V1SameEnds(period, ref, o, k);
      }
    }
  }

  lemma FebruaryStart()
    ensures MonthStart(12 * 1970 + 1) == 31
  {
  }

  /** 28 February 1970 with statement day 31: the cycle of that day ended the day before. */
  lemma V1CycleCanEndEarly()
    ensures UtcDay(MidnightOf(58)) == 58 && PastShortMonth(58, 31)
    ensures StatementCycleBounds(MidnightOf(58), Some(31)).end == 57
  {
    hide MonthStart, MonthIndexOf, StatementCycleBounds, LastDayOfMonth, YearOf, MonthOf, DateOf;
    FebruaryStart();
    assert MakeDay(1970, 1, 28) == 58;
    CivilFields(1970, 1, 28);
    LastDayIsLength(1970, 1);
    assert UtcDay(MidnightOf(58)) == 58;
    V1CycleNear(MidnightOf(58), 31);
  }
}
