/** A rebuild that drops a later spend's entry: the failing family of `OverlapAgreesIff` is not empty.
    A card whose statement closes on the 14th has a cap per statement cycle and one per calendar
    month. Its caps are rebuilt as of 9 January 1971, and it has a spend on 5 February. */
module CardExample {
  import opened Basics
  import opened Calendar
  import opened Cycles
  import opened CardRecords
  import opened CardModel
  import opened CardReplay
  import opened CardAgreement
  import opened CardWindows
  import opened CardRefinement
  import opened CardRuns

  const JAN_1 := 365
  const JAN_9 := 373
  const FEB_5 := 400

  function ExampleDates(): Dates { Dates(Some(14), None, false, None, false) }

  function CapTerms(id: Id): Terms { Terms(if id == 0 then StatementCycle else CalendarMonth, NoAnchor, None) }

  function ExampleWindows(): Windows {
    WindowsOf(ExampleDates(), (id: Id) => CapTerms(id), (id: Id) => CapTerms(id), (id: Id) => CalendarMonth)
  }

  function ExampleCard(): Card {
    Card(1, [0, 1], {}, [], [], {}, (id: Id, kind: Kind) => None,
         Engine((ctx: Context) => CapPlan([AppliedCap(0, TotalPoints, 100)], false),
                (ctx: Context, before: map<Id, int>) => Priced(map[0 := 5], 5, 5, None, false)),
         ExampleWindows())
  }

  lemma ExampleCarried()
    ensures Carried(ExampleCard(), ExampleDates(), (id: Id) => CapTerms(id), (id: Id) => CapTerms(id),
                    (id: Id) => CalendarMonth)
  {
  }

  // ---- the windows ------------------------------------------------------------------------------

  const JAN_1971 := 12 * 1971

  lemma NextMonth(y: int, m: int)
    requires 0 <= m < 12
    ensures MonthStart(12 * y + m + 1) == MonthStart(12 * y + m) + MonthLength(y, m)
  {
    hide MonthStart, MonthLength;
    MonthFields(y, m);
    MonthStep(12 * y + m);
  }

  lemma Year1970()
    ensures MonthStart(12 * 1970) == 0
  {
  }

  lemma MonthStarts()
    ensures MonthStart(JAN_1971 - 1) == 334 && MonthStart(JAN_1971) == JAN_1 && MonthStart(JAN_1971 + 1) == 396
    ensures MonthStart(JAN_1971 + 2) == 424
  {
    hide MonthStart;
    Year1970();
    NextMonth(1970, 0);
    NextMonth(1970, 1);
    NextMonth(1970, 2);
    NextMonth(1970, 3);
    NextMonth(1970, 4);
    NextMonth(1970, 5);
    NextMonth(1970, 6);
    NextMonth(1970, 7);
    NextMonth(1970, 8);
    NextMonth(1970, 9);
    NextMonth(1970, 10);
    NextMonth(1970, 11);
    NextMonth(1971, 0);
    NextMonth(1971, 1);
  }

  function ExampleCycle(id: Id): Cycle { if id == 0 then Statements(14) else Months(1, 0) }

  lemma CapWindowIs(id: Id, day: int)
    ensures var period, o := CapTerms(id).period, CapOptions(ExampleDates(), CapTerms(id));
      && CycleOf(period, o) == Some(ExampleCycle(id)) && WindowBoundsV2(period, MidnightOf(day), o).Some?
      && ExampleCard().windows.cap(id, day) == WindowBoundsV2(period, MidnightOf(day), o).value
      && !ExampleCard().windows.cap(id, day).approximate
  {
    hide CalendarMonthBounds, StatementCycleBoundsV2;
    CapWindowExists(CapTerms(id).period, MidnightOf(day), CapOptions(ExampleDates(), CapTerms(id)));
    var caps := (id: Id) => CapTerms(id);
    assert ExampleCard().windows.cap(id, day) == CapWindow(ExampleDates(), caps(id), day);
    assert caps(id) == CapTerms(id);
  }

  lemma CapWindowAt(id: Id, day: int, k: int)
    requires Boundary(ExampleCycle(id), k) <= day < Boundary(ExampleCycle(id), k + 1)
    ensures ExampleCard().windows.cap(id, day) == Window(Boundary(ExampleCycle(id), k),
                                                         Boundary(ExampleCycle(id), k + 1) - 1, false)
  {
    hide ExampleCycle, Boundary, WindowBoundsV2, CycleOf, CapTerms, CapOptions, ExampleDates, ExampleCard, MidnightOf;
    CapWindowIs(id, day);
    CapWindowCell(ExampleDates(), CapTerms(id), ExampleCycle(id), day, k);
  }

  lemma WindowsAt(day: int)
    ensures 348 <= day <= 378 ==> ExampleCard().windows.cap(0, day) == Window(348, 378, false)
    ensures 379 <= day <= 409 ==> ExampleCard().windows.cap(0, day) == Window(379, 409, false)
    ensures 365 <= day <= 395 ==> ExampleCard().windows.cap(1, day) == Window(365, 395, false)
  {
    MonthStarts();
    hide MonthStart, ExampleCard;
    assert Boundary(Statements(14), JAN_1971) == 348 && Boundary(Statements(14), JAN_1971 + 1) == 379;
    assert Boundary(Statements(14), JAN_1971 + 2) == 410;
    assert Boundary(Months(1, 0), JAN_1971) == 365 && Boundary(Months(1, 0), JAN_1971 + 1) == 396;
    hide Boundary;
    if 348 <= day <= 378 {
      CapWindowAt(0, day, JAN_1971);
    } else if 379 <= day <= 409 {
      CapWindowAt(0, day, JAN_1971 + 1);
    }
    if 365 <= day <= 395 {
      CapWindowAt(1, day, JAN_1971);
    }
  }

  // ---- the store --------------------------------------------------------------------------------

  /** The spend, recorded in the statement cycle of 15 January to 14 February. */
  function ExampleSpend(): Txn {
    Txn(7, 1, Context(500, FEB_5 * 86_400_000, None, 0), true, true, true, false, Expected(Some(5), Some(5), None),
        Some(Record(1, [Entry(0, 379, 409, 5, Some(TotalPoints))], [], [])))
  }

  function ExampleBook(): Book {
    Book(map[Key(1, 0, 379) := Row(409, 5, CapMark(Some(TotalPoints), Some(100), false))], map[], map[],
         map[7 := ExampleSpend()], map[7 := 5])
  }

  /** The card was opened on 1 January, so nothing is read before that day. */
  function ExampleRequest(): Request { Request(JAN_9, None, true, false, false, Some(JAN_1)) }

  lemma SpendDayIs()
    ensures DayOf(ExampleSpend()) == FEB_5
  {
  }

  lemma ExampleFloor()
    ensures IsFloor(ExampleBook().txns, ExampleCard(), Some(JAN_1), JAN_9, JAN_1)
  {
    SpendDayIs();
  }

  function ExampleRangeIs(): Range { Range(JAN_9, Some(CapRange(JAN_1, 395, JAN_1, 409)), [], Some(JAN_1), Some(409)) }

  lemma ExampleRange()
    ensures RangeOf(ExampleCard(), ExampleRequest()) == ExampleRangeIs()
  {
    WindowsAt(JAN_1);
    WindowsAt(JAN_9);
    WindowsAt(395);
    var card := ExampleCard();
    hide ExampleWindows;
    assert card.caps == [0, 1] && [0, 1][1..] == [1] && [1][1..] == [];
  }

  // ---- the rebuild ------------------------------------------------------------------------------

  lemma ExamplePeriods()
    ensures PeriodsOf(ExampleCard(), ExampleRangeIs(), 0) == [Window(348, 378, false)]
    ensures PeriodsOf(ExampleCard(), ExampleRangeIs(), 1) == [Window(365, 395, false)]
  {
    WindowsAt(JAN_1);
    WindowsAt(JAN_9);
    hide ExampleWindows;
  }

  lemma AddOneSlot(rows: Table, card: Card, id: Id, w: Window)
    ensures AddSlots(rows, card, id, [w])
            == rows[Key(card.id, id, w.start) := Row(w.end, 0, CapMark(None, None, w.approximate))]
  {
    assert [w][1..] == [];
  }

  lemma ExampleSlots()
    ensures Slots(ExampleCard(), ExampleRangeIs()).Keys == {Key(1, 0, 348), Key(1, 1, 365)}
  {
    hide PeriodsOf, ExampleWindows;
    var card, range := ExampleCard(), ExampleRangeIs();
    var w0, w1 := Window(348, 378, false), Window(365, 395, false);
    ExamplePeriods();
    assert card.id == 1 && card.caps == [0, 1];
    AddOneSlot(map[], card, 0, w0);
    var s0 := AddSlots(map[], card, 0, [w0]);
    AddOneSlot(s0, card, 1, w1);
    assert [0, 1][1..] == [1] && [1][1..] == [];
    hide AddSlots;
    assert SlotsFor(s0, card, range, [1]) == SlotsFor(AddSlots(s0, card, 1, [w1]), card, range, []);
    assert SlotsFor(map[], card, range, [0, 1]) == SlotsFor(s0, card, range, [1]);
  }

  lemma ExampleRows()
    ensures Key(1, 0, 379) !in RowsOf(ExampleCard(), ExampleRangeIs(), [ExampleSpend()], {})
  {
    hide Slots, ExampleWindows;
    ExampleSlots();
    var card, range := ExampleCard(), ExampleRangeIs();
    var slots, t := Slots(card, range), ExampleSpend();
    var es := EntriesOf(t.record, Caps);
    assert es == [Entry(0, 379, 409, 5, Some(TotalPoints))] && es[1..] == [];
    assert SeedRows(card, slots, es) == SeedRows(card, slots, es[1..]) == slots;
    assert [t][1..] == [];
    var r := Replay(slots, map[], map[]);
    SpendDayIs();
    assert ReplayOne(card, range.caps.value, r, t, {}) == r;
    assert ReplayAll(card, range.caps.value, r, [t], {}) == ReplayAll(card, range.caps.value, r, [t][1..], {}) == r;
  }

  lemma ExampleSound()
    ensures Sound(ExampleCard())
  {
    ExampleCarried();
    hide Tiled, Carried, ExampleWindows;
    RealWindowsTile(ExampleCard(), ExampleDates(), (id: Id) => CapTerms(id), (id: Id) => CapTerms(id),
                    (id: Id) => CalendarMonth);
  }

  lemma ExampleGood()
    ensures Rebuilding(ExampleBook(), ExampleCard(), ExampleRangeIs(), [ExampleSpend()])
    ensures Overlapping(ExampleCard(), ExampleRangeIs(), Key(1, 0, 379))
  {
    hide Sound, ExampleWindows;
    ExampleSound();
    SpendDayIs();
    WindowsAt(FEB_5);
    WindowsAt(379);
    var b, card, range, t := ExampleBook(), ExampleCard(), ExampleRangeIs(), ExampleSpend();
    assert b.txns.Keys == {7} && b.txns[7] == t;
    assert DatedTxn(card, t);
    assert GoodBook(b, card);
    assert LoadsAll(b, card, range);
    assert Loads(b, card, range, [t]);
  }

  /** The card's windows are real, the store is well formed, the rebuild loads all of it, and still
      the row of the later statement cycle is deleted while its record keeps its entry. */
  lemma DroppedSeedExample()
    ensures var b, card, ts, k := ExampleBook(), ExampleCard(), [ExampleSpend()], Key(1, 0, 379);
      var range := RangeOf(card, ExampleRequest());
      && Carried(card, ExampleDates(), (id: Id) => CapTerms(id), (id: Id) => CapTerms(id), (id: Id) => CalendarMonth)
      && IsFloor(b.txns, card, Some(JAN_1), JAN_9, JAN_1)
      && Rebuilding(b, card, range, ts) && Overlapping(card, range, k)
      && Value(b.caps, k) == Total(b.txns, Caps, k)
      && Value(Rebuilt(b, card, range, false, ts, {}).caps, k) != Total(Kept(Rebuilt(b, card, range, false, ts, {}),
          {}), Caps, k)
  {
    ExampleCarried();
    ExampleFloor();
    ExampleRange();
    hide RangeOf, RowsOf, Rebuilding, Rebuilt, ExampleWindows, IsFloor, Carried;
    ExampleGood();
    ExampleRows();
    var b, card, range, t := ExampleBook(), ExampleCard(), ExampleRangeIs(), ExampleSpend();
    var k, es := Key(1, 0, 379), EntriesOf(ExampleSpend().record, Caps);
    assert es[1..] == [] && EntrySum(es, 0, 379) == 5;
    TotalPick(b.txns, 7, Caps, k);
    assert b.txns - {7} == map[];
    SpendDayIs();
    assert t in [t];
    RowsBuiltIff(card, range, [t], {}, k);
    assert SeedDropped(card, range, [t], {}, k);
    OverlapAgreesIff(b, card, range, false, [t], {}, k);
  }

  // ---- in a run -----------------------------------------------------------------------------------

  /** Every card id with the example's terms. */
  function ExampleCards(): Cards { (id: Id) => ExampleCard().(id := id) }

  lemma ExampleCardsGood()
    ensures GoodCards(ExampleCards())
  {
    ExampleCarried();
    ExampleSound();
    hide ExampleWindows, Carried;
    forall id
      ensures ExampleCards()(id).id == id && Sound(ExampleCards()(id)) && TiledMilestones(ExampleCards()(id))
    {
      var card := ExampleCards()(id);
      assert card.windows == ExampleCard().windows && card.caps == ExampleCard().caps && card.lifetime == {};
      assert forall cap :: cap in card.caps ==> TiledCap(ExampleCard(), cap);
      assert forall cap :: TiledCap(ExampleCard(), cap) ==> TiledCap(card, cap);
    }
  }

  /** The example's store is one that runs are about, and its rebuild one they make. */
  lemma ExampleInRun(threshold: Id -> int)
    ensures GoodCards(ExampleCards()) && Good(ExampleBook(), ExampleCards(), threshold)
    ensures Rebuilds(ExampleBook(), ExampleCards()(1), Some(JAN_1), ExampleRequest(), [ExampleSpend()])
  {
    ExampleCardsGood();
    ExampleFloor();
    ExampleRange();
    ExampleGood();
    SpendDayIs();
    WindowsAt(FEB_5);
    WindowsAt(379);
    hide GoodCards, ExampleWindows, RangeOf, IsFloor, Sound;
    var b, t, card := ExampleBook(), ExampleSpend(), ExampleCards()(1);
    assert card == ExampleCard();
    assert DatedCap(card, DayOf(t), t.record.value.caps[0]);
    assert DatedRecord(card, t);
    assert GoodTxn(ExampleCards(), 7, t);
    assert b.txns.Keys == {7};
    assert RowDated(ExampleCards(), Key(1, 0, 379), b.caps[Key(1, 0, 379)]);
    assert b.caps.Keys == {Key(1, 0, 379)};
    assert Clean(b);
  }
}
