/** A card's real windows, and that they satisfy what recording and rebuilding ask of windows. */
module CardWindows {
  import opened Basics
  import opened Calendar
  import opened Cycles
  import opened CardRecords
  import opened CardModel
  import opened CardReplay
  import opened CardRange

  datatype Terms = Terms(period: Period, anchor: Anchor, windowDays: Option<int>)

  /** The card's own dates: the card-year anchor and, for welcome windows, the issue anchor. */
  datatype Dates = Dates(statementDay: Option<int>, anchor: Option<int>, anchorApproximate: bool,
                         issue: Option<int>, issueApproximate: bool)

  function CapOptions(dates: Dates, terms: Terms): WindowOptions {
    WindowOptions(dates.statementDay, terms.anchor, dates.anchor, dates.anchorApproximate, None)
  }

  function MilestoneOptions(dates: Dates, terms: Terms): WindowOptions {
    var welcome := terms.windowDays.Some?;
    WindowOptions(dates.statementDay, terms.anchor, if welcome then dates.issue else dates.anchor,
                  if welcome then dates.issueApproximate else dates.anchorApproximate, terms.windowDays)
  }

  /** A cap has no welcome window, so its window always exists. */
  lemma CapWindowExists(period: Period, occurred: int, o: WindowOptions)
    requires o.windowDays.None?
    ensures WindowBoundsV2(period, occurred, o).Some?
  {
  }

  /** `capWindow` of a day. */
  function CapWindow(dates: Dates, terms: Terms, day: int): Window {
    CapWindowExists(terms.period, MidnightOf(day), CapOptions(dates, terms));
    WindowBoundsV2(terms.period, MidnightOf(day), CapOptions(dates, terms)).value
  }

  /** `milestoneWindow` of a day. */
  function MilestoneWindow(dates: Dates, terms: Terms, day: int): Option<Window> {
    WindowBoundsV2(terms.period, MidnightOf(day), MilestoneOptions(dates, terms))
  }

  function WindowsOf(dates: Dates, caps: Id -> Terms, milestones: Id -> Terms, fees: Id -> Period): Windows {
    Windows((id: Id, day: int) => CapWindow(dates, caps(id), day), (id: Id, day: int) => MilestoneWindow(dates,
        milestones(id), day),
            (id: Id, day: int) => PeriodBounds(fees(id), MidnightOf(day), dates.statementDay, NoAnchor, None))
  }

  /** `card` carries these windows, and calls lifetime the caps with that period. */
  ghost predicate Carried(card: Card, dates: Dates, caps: Id -> Terms, milestones: Id -> Terms, fees: Id -> Period) {
    card.windows == WindowsOf(dates, caps, milestones, fees)
    && forall id :: id in card.caps ==> (id in card.lifetime <==> caps(id).period == Lifetime)
  }

  lemma MidnightDay(day: int)
    ensures IstDay(MidnightOf(day)) == day
  {
  }

  /** An instant is dated by its India calendar day alone. */
  lemma InstantWindow(period: Period, occurred: int, o: WindowOptions)
    ensures WindowBoundsV2(period, occurred, o) == WindowBoundsV2(period, MidnightOf(IstDay(occurred)), o)
  {
    var day := IstDay(occurred);
    MidnightDay(day);
    if CycleOf(period, o).Some? {
      hide WindowBoundsV2, CycleOf;
      WindowsTile(period, occurred, o, MidnightOf(day));
    } else {
      hide CalendarMonthBounds, CalendarYearBounds, AnniversaryYearBounds, StatementCycleBoundsV2, AddDays;
    }
  }

  lemma LifetimeWindow(occurred: int, o: WindowOptions)
    requires o.windowDays.None?
    ensures WindowBoundsV2(Lifetime, occurred, o) == Some(Window(LIFETIME_START, LIFETIME_END, false))
  {
  }

  lemma CapTiled(card: Card, dates: Dates, caps: Id -> Terms, milestones: Id -> Terms, fees: Id -> Period, id: Id)
    requires Carried(card, dates, caps, milestones, fees) && id in card.caps
    ensures TiledCap(card, id)
  {
    var terms, o := caps(id), CapOptions(dates, caps(id));
    forall day, other
      ensures var w, v := card.windows.cap(id, day), card.windows.cap(id, other);
        if terms.period == Lifetime then w == Window(LIFETIME_START, LIFETIME_END, false)
        else && w.start <= day <= w.end
             && (w.start <= other <= w.end ==> v == w)
             && (other < w.start ==> v.end < w.start)
             && (other == w.end + 1 ==> v.start == w.end + 1)
    {
      MidnightDay(day);
      MidnightDay(other);
      if terms.period == Lifetime {
        LifetimeWindow(MidnightOf(day), o);
      } else {
        CycleThere(terms.period, o);
        WindowsTile(terms.period, MidnightOf(day), o, MidnightOf(other));
      }
    }
  }

  /** A welcome window is one fixed window, shown on its own days only. */
  lemma WelcomeWindow(period: Period, day: int, other: int, o: WindowOptions)
    requires o.windowDays.Some?
    ensures var w, v := WindowBoundsV2(period, MidnightOf(day), o), WindowBoundsV2(period, MidnightOf(other), o);
      && (w.Some? ==> w.value.start <= day <= w.value.end)
      && (w.Some? && w.value.start <= other <= w.value.end ==> v == w)
      && (w.Some? && v.Some? ==> v == w)
  {
  }

  lemma MilestoneTiled(card: Card, dates: Dates, caps: Id -> Terms, milestones: Id -> Terms, fees: Id -> Period, id: Id)
    requires Carried(card, dates, caps, milestones, fees)
    ensures TiledMilestone(card, id)
  {
    var terms, o := milestones(id), MilestoneOptions(dates, milestones(id));
    forall day, other
      ensures var w, v := card.windows.milestone(id, day), card.windows.milestone(id, other);
        w.Some? ==>
          && (InSpan(day) ==> w.value.start <= day <= w.value.end)
          && (v.Some? && w.value.start <= v.value.end && v.value.start <= w.value.end ==> v == w)
          && (InSpan(other) && w.value.start <= other <= w.value.end ==> v == w)
    {
      MidnightDay(day);
      MidnightDay(other);
      if o.windowDays.Some? {
        WelcomeWindow(terms.period, day, other, o);
      } else if terms.period == Lifetime {
        LifetimeWindow(MidnightOf(day), o);
        LifetimeWindow(MidnightOf(other), o);
      } else {
        CycleThere(terms.period, o);
        WindowsTile(terms.period, MidnightOf(day), o, MidnightOf(other));
        WindowsTile(terms.period, MidnightOf(other), o, MidnightOf(day));
      }
    }
  }

  /** A row as the v1 path dates it shares its start with one of the cap's windows only if it ends no
      earlier, whatever the card's dates and terms. */
  lemma V1RowsDated(card: Card, dates: Dates, caps: Id -> Terms, milestones: Id -> Terms, fees: Id -> Period, id: Id,
                    occurred: int)
    requires Carried(card, dates, caps, milestones, fees) && id in card.caps
    requires dates.statementDay.Some? ==> 1 <= dates.statementDay.value <= 31
    ensures var b := PeriodBounds(caps(id).period, occurred, dates.statementDay, NoAnchor, None);
      var w := card.windows.cap(id, b.start);
      w.start == b.start ==> w.end <= b.end
  {
    var b := PeriodBounds(caps(id).period, occurred, dates.statementDay, NoAnchor, None);
    hide WindowBoundsV2, PeriodBounds;
    V1EndsNoEarlier(caps(id).period, MidnightOf(b.start), CapOptions(dates, caps(id)), occurred);
  }

  /** Every card's windows tile its days, whatever its statement day, anchor dates and terms. */
  lemma RealWindowsTile(card: Card, dates: Dates, caps: Id -> Terms, milestones: Id -> Terms, fees: Id -> Period)
    requires Carried(card, dates, caps, milestones, fees)
    ensures Tiled(card) && TiledMilestones(card)
  {
    forall id | id in card.caps
      ensures TiledCap(card, id)
    {
      CapTiled(card, dates, caps, milestones, fees, id);
    }
    forall m | m in card.milestones
      ensures TiledMilestone(card, m.id)
    {
      MilestoneTiled(card, dates, caps, milestones, fees, m.id);
    }
  }

  /** The cell a day lies in is the only one. */
  lemma OnlyCell(c: Cycle, k: int, j: int, day: int)
    requires WellFormedCycle(c) && Boundary(c, k) <= day < Boundary(c, k + 1)
             && Boundary(c, j) <= day < Boundary(c, j + 1)
    ensures k == j
  {
    hide Boundary;
    if k + 1 < j {
      BoundaryIncreasing(c, k + 1, j);
    } else if j + 1 < k {
      BoundaryIncreasing(c, j + 1, k);
    }
  }

  /** A cap's window of a day, given the cell the day lies in. */
  lemma CapWindowCell(dates: Dates, terms: Terms, c: Cycle, day: int, k: int)
    requires CycleOf(terms.period, CapOptions(dates, terms)) == Some(c)
    requires Boundary(c, k) <= day < Boundary(c, k + 1)
    ensures var w := CapWindow(dates, terms, day); w.start == Boundary(c, k) && w.end == Boundary(c, k + 1) - 1
  {
    hide Boundary, WindowBoundsV2, MidnightOf, IstDay;
    var o := CapOptions(dates, terms);
    CapWindowExists(terms.period, MidnightOf(day), o);
    MidnightDay(day);
    var j := WindowIsCell(terms.period, MidnightOf(day), o);
    OnlyCell(c, k, j, day);
  }

  // ---- the period limit -------------------------------------------------------------------------

  /** No recurring window is shorter than 28 days. */
  lemma BoundarySpread(c: Cycle, k: int)
    requires WellFormedCycle(c)
    ensures Boundary(c, k + 1) - Boundary(c, k) >= 28
  {
    match c
    case Months(step, offset) =>
      assert step * (k + 1) + offset == step * k + offset + step;
      MonthStep(step * k + offset);
      MonthStartSpread(step * k + offset + 1, step * (k + 1) + offset);
    case Statements(day) =>
      MonthStep(k - 1);
    case Anniversaries(month, date) =>
      MonthStartSpread(12 * k + month + 2, 12 * (k + 1) + month);
      MonthStep(12 * k + month);
      MonthStep(12 * k + month + 1);
  }

  lemma CapWindowLong(card: Card, dates: Dates, caps: Id -> Terms, milestones: Id -> Terms, fees: Id -> Period, id: Id,
                      day: int)
    requires Carried(card, dates, caps, milestones, fees) && id in card.caps
    ensures var w := card.windows.cap(id, day); w.end - w.start >= 27
  {
    hide MonthStart, Boundary;
    var terms, o := caps(id), CapOptions(dates, caps(id));
    if terms.period == Lifetime {
      LifetimeWindow(MidnightOf(day), o);
    } else {
      CycleThere(terms.period, o);
      var k := WindowIsCell(terms.period, MidnightOf(day), o);
      BoundarySpread(CycleOf(terms.period, o).value, k);
    }
  }

  lemma {:induction false} LongPeriodsLast(ws: seq<Window>, start: int)
    requires ws != [] && Chain(ws) && ws[0].end >= start
    requires forall v :: v in ws ==> v.end - v.start >= 27
    ensures ws[|ws| - 1].end >= start + 28 * (|ws| - 1)
  {
    if |ws| > 1 {
      assert ws[..|ws| - 1][|ws| - 2] == ws[|ws| - 2];
      LongPeriodsLast(ws[..|ws| - 1], start);
      assert ws[|ws| - 2 + 1].start == ws[|ws| - 2].end + 1;
      assert ws[|ws| - 1] in ws;
    }
  }

  /** The limit of 5000 periods stops no enumeration over fewer than 383 years of days: it lists
      exactly the windows that meet `[start, end]`. */
  lemma RealPeriodsExact(card: Card, dates: Dates, caps: Id -> Terms, milestones: Id -> Terms, fees: Id -> Period,
                         id: Id, start: int, end: int)
    requires Carried(card, dates, caps, milestones, fees) && id in card.caps && id !in card.lifetime
    requires start <= end <= start + 28 * (MAX_PERIODS_PER_CAP - 1)
    ensures forall w :: w in PeriodsFrom(card, id, card.windows.cap(id, start), end, MAX_PERIODS_PER_CAP)
              <==> IsWindow(card, id, w) && Meets(w, start, end)
  {
    hide TiledCap, PeriodsFrom, Carried;
    CapTiled(card, dates, caps, milestones, fees, id);
    var first := card.windows.cap(id, start);
    FirstPeriod(card, id, start, end, MAX_PERIODS_PER_CAP);
    PeriodsConsecutive(card, id, first, start, end, MAX_PERIODS_PER_CAP);
    PeriodsExact(card, id, start, end, MAX_PERIODS_PER_CAP);
    var ws := PeriodsFrom(card, id, first, end, MAX_PERIODS_PER_CAP);
    forall v | v in ws
      ensures v.end - v.start >= 27
    {
      CapWindowLong(card, dates, caps, milestones, fees, id, v.start);
    }
    LongPeriodsLast(ws, start);
  }
}
