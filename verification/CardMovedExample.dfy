/** A stored row that a rebuild does not see: the failing family of `UnfoundAgreesIff` is not empty.
    A card has a cap per statement cycle and one per card year, which starts on 30 March. Its
    statement day was the 28th and is now the 31st, so the cycle that starts on 1 March 1971 moved its
    end from 28 to 31 March. The caps are rebuilt as of 9 April, from 30 March on. */
module CardMovedExample {
  import opened Basics
  import opened Calendar
  import opened Cycles
  import opened CardRecords
  import opened CardModel
  import opened CardReplay
  import opened CardRange
  import opened CardAgreement
  import opened CardWindows
  import opened CardExample

  const MAR_1 := 424
  const MAR_10 := 433
  const MAR_28 := 451
  const MAR_30 := 453
  const APR_1 := 455
  const APR_9 := 463

  /** The card's anniversary: 30 March 1970. */
  const OPENED := 88

  function MovedDates(statementDay: int): Dates { Dates(Some(statementDay), Some(OPENED), false, None, false) }

  function MovedTerms(id: Id): Terms {
    if id == 0 then Terms(StatementCycle, NoAnchor, None) else Terms(Annual, CardAnniversary, None)
  }

  /** The card while its statement day is `statementDay`. */
  function MovedCard(statementDay: int): Card {
    Card(1, [0, 1], {}, [], [], {}, (id: Id, kind: Kind) => None,
         Engine((ctx: Context) => CapPlan([AppliedCap(0, TotalPoints, 100)], false),
                (ctx: Context, before: map<Id, int>) => Priced(map[0 := 5], 5, 5, None, false)),
         WindowsOf(MovedDates(statementDay), (id: Id) => MovedTerms(id), (id: Id) => MovedTerms(id),
                   (id: Id) => CalendarMonth))
  }

  ghost predicate MovedCarried(statementDay: int) {
    Carried(MovedCard(statementDay), MovedDates(statementDay), (id: Id) => MovedTerms(id), (id: Id) => MovedTerms(id),
            (id: Id) => CalendarMonth)
  }

  // ---- the windows ------------------------------------------------------------------------------

  lemma MonthsToApril1972()
    ensures MonthStart(JAN_1971 + 1) == 396 && MonthStart(JAN_1971 + 2) == MAR_1 && MonthStart(JAN_1971 + 3) == APR_1
    ensures MonthStart(JAN_1971 + 4) == 485 && MonthStart(JAN_1971 + 13) == 761 && MonthStart(JAN_1971 + 14) == 790
    ensures MonthStart(JAN_1971 + 15) == 821
  {
    hide MonthStart;
    MonthStarts();
    NextMonth(1971, 2);
    NextMonth(1971, 3);
    NextMonth(1971, 4);
    NextMonth(1971, 5);
    NextMonth(1971, 6);
    NextMonth(1971, 7);
    NextMonth(1971, 8);
    NextMonth(1971, 9);
    NextMonth(1971, 10);
    NextMonth(1971, 11);
    NextMonth(1972, 0);
    NextMonth(1972, 1);
    NextMonth(1972, 2);
  }

  lemma OpenedFields()
    ensures MonthOf(OPENED) == 2 && DateOf(OPENED) == 30
  {
    hide MonthStart, MonthIndexOf;
    Year1970();
    NextMonth(1970, 0);
    NextMonth(1970, 1);
    CivilFields(1970, 2, 30);
  }

  lemma Boundaries()
    ensures Boundary(Statements(28), JAN_1971 + 2) == MAR_1 && Boundary(Statements(28), JAN_1971 + 3) == MAR_28 + 1
    ensures Boundary(Statements(31), JAN_1971 + 2) == MAR_1 && Boundary(Statements(31), JAN_1971 + 3) == APR_1
    ensures Boundary(Statements(31), JAN_1971 + 4) == 485
    ensures Boundary(Statements(31), JAN_1971 + 14) == 790 && Boundary(Statements(31), JAN_1971 + 15) == 821
    ensures Boundary(Anniversaries(2, 30), 1971) == MAR_30 && Boundary(Anniversaries(2, 30), 1972) == 819
  {
    hide MonthStart;
    MonthsToApril1972();
  }

  lemma StatementWindow(statementDay: int, day: int, k: int)
    requires 1 <= statementDay <= 31
    requires Boundary(Statements(statementDay), k) <= day < Boundary(Statements(statementDay), k + 1)
    ensures var w, c := MovedCard(statementDay).windows.cap(0, day), Statements(statementDay);
      w.start == Boundary(c, k) && w.end == Boundary(c, k + 1) - 1
  {
    hide Boundary, CapWindow;
    CapWindowCell(MovedDates(statementDay), MovedTerms(0), Statements(statementDay), day, k);
  }

  lemma YearWindow(statementDay: int, day: int)
    requires MAR_30 <= day <= 818
    ensures var w := MovedCard(statementDay).windows.cap(1, day); w.start == MAR_30 && w.end == 818
  {
    Boundaries();
    OpenedFields();
    hide Boundary, CapWindow, MonthOf, DateOf;
    CapWindowCell(MovedDates(statementDay), MovedTerms(1), Anniversaries(2, 30), day, 1971);
  }

  lemma MovedWindows(day: int)
    ensures MAR_1 <= day <= MAR_28 ==>
      var w := MovedCard(28).windows.cap(0, day); w.start == MAR_1 && w.end == MAR_28
    ensures var w := MovedCard(31).windows.cap(0, day);
      && (MAR_1 <= day < APR_1 ==> w.start == MAR_1 && w.end == APR_1 - 1)
      && (APR_1 <= day < 485 ==> w.start == APR_1 && w.end == 484)
      && (790 <= day < 821 ==> w.start == 790 && w.end == 820)
  {
    Boundaries();
    hide Boundary, MovedCard;
    if MAR_1 <= day <= MAR_28 {
      StatementWindow(28, day, JAN_1971 + 2);
    }
    if MAR_1 <= day < APR_1 {
      StatementWindow(31, day, JAN_1971 + 2);
    } else if APR_1 <= day < 485 {
      StatementWindow(31, day, JAN_1971 + 3);
    } else if 790 <= day < 821 {
      StatementWindow(31, day, JAN_1971 + 14);
    }
  }

  // ---- the store --------------------------------------------------------------------------------

  const MARCH := Key(1, 0, MAR_1)

  /** A spend of 10 March whose recording was put off after the cycle's row had counted it. */
  function MovedSpend(): Txn {
    Txn(7, 1, Context(500, MAR_10 * 86_400_000, None, 0), true, true, true, false, Expected(Some(5), Some(5), None),
        None)
  }

  function MovedBook(): Book {
    Book(map[MARCH := Row(MAR_28, 5, CapMark(Some(TotalPoints), Some(100), false))], map[], map[],
         map[7 := MovedSpend()], map[7 := 5])
  }

  function MovedRequest(): Request { Request(APR_9, None, true, false, false, Some(JAN_1)) }

  function MovedRange(): Range { Range(APR_9, Some(CapRange(MAR_30, 818, MAR_1, 820)), [], Some(MAR_1), Some(820)) }

  lemma MovedDay()
    ensures DayOf(MovedSpend()) == MAR_10
  {
  }

  lemma MovedFloor()
    ensures IsFloor(MovedBook().txns, MovedCard(31), Some(JAN_1), APR_9, JAN_1)
  {
    MovedDay();
  }

  lemma MovedRangeIs()
    ensures RangeOf(MovedCard(31), MovedRequest()) == MovedRange()
  {
    MovedWindows(MAR_30);
    MovedWindows(APR_9);
    MovedWindows(818);
    YearWindow(31, MAR_30);
    YearWindow(31, APR_9);
    YearWindow(31, 818);
    var card := MovedCard(31);
    hide WindowsOf, CapWindow, MovedTerms;
    assert card.caps == [0, 1] && [0, 1][1..] == [1] && [1][1..] == [];
  }

  lemma MovedSound(statementDay: int)
    ensures MovedCarried(statementDay) && Sound(MovedCard(statementDay))
  {
    hide Tiled, WindowsOf;
    assert MovedCarried(statementDay);
    RealWindowsTile(MovedCard(statementDay), MovedDates(statementDay), (id: Id) => MovedTerms(id),
                    (id: Id) => MovedTerms(id), (id: Id) => CalendarMonth);
  }

  lemma MovedGood()
    ensures Rebuilding(MovedBook(), MovedCard(31), MovedRange(), [MovedSpend()])
    ensures Overlapping(MovedCard(31), MovedRange(), MARCH) && !Found(MovedBook(), MovedRange(), MARCH)
    ensures StoredRowsDated(MovedCard(28), MovedBook().caps)
  {
    hide Sound, WindowsOf, CapWindow;
    MovedSound(31);
    MovedDay();
    MovedWindows(MAR_1);
    MovedWindows(MAR_10);
    var b, card, range, t := MovedBook(), MovedCard(31), MovedRange(), MovedSpend();
    assert b.txns.Keys == {7} && b.txns[7] == t;
    assert LoadsAll(b, card, range);
    assert Loads(b, card, range, [t]);
  }

  /** The spend counts through its stored record, and it has none. */
  lemma MovedRows()
    ensures var rows := RowsOf(MovedCard(31), MovedRange(), [MovedSpend()], {}); MARCH in rows && rows[MARCH].value == 0
  {
    var card, range, t := MovedCard(31), MovedRange(), MovedSpend();
    hide Slots, WindowsOf, CapWindow, Tiled;
    MovedSound(31);
    MovedDay();
    MovedWindows(MAR_30);
    SlotsDated(card, range);
    var r := Replay(Slots(card, range), map[], map[]);
    assert [t][1..] == [];
    assert ReplayOne(card, range.caps.value, r, t, {}) == r;
    assert ReplayAll(card, range.caps.value, r, [t], {}) == ReplayAll(card, range.caps.value, r, [t][1..], {}) == r;
  }

  /** The stored row is right for the statement day it was written under, and the windows are real;
      the rebuild loads everything, rebuilds the row as empty, and yet leaves the stored one. */
  lemma UnseenRowExample()
    ensures var b, card, ts := MovedBook(), MovedCard(31), [MovedSpend()];
      var range := RangeOf(card, MovedRequest());
      var a := Rebuilt(b, card, range, false, ts, {});
      && MovedCarried(28) && StoredRowsDated(MovedCard(28), b.caps)
      && MovedCarried(31) && IsFloor(b.txns, card, Some(JAN_1), APR_9, JAN_1)
      && Rebuilding(b, card, range, ts) && Overlapping(card, range, MARCH) && !Found(b, range, MARCH)
      && MARCH in RowsOf(card, range, ts, {}) && RowsOf(card, range, ts, {})[MARCH].value == 0
      && Value(a.caps, MARCH) == 5 && Total(Kept(a, {}), Caps, MARCH) == 0
  {
    MovedSound(28);
    MovedSound(31);
    MovedFloor();
    MovedRangeIs();
    MovedGood();
    MovedRows();
    var b, card, range, t := MovedBook(), MovedCard(31), MovedRange(), MovedSpend();
    hide RangeOf, RowsOf, Rebuilding, Rebuilt, WindowsOf, IsFloor, MovedCarried, StoredRowsDated, MovedCard;
    BuiltValue(b, card, range, false, [t], {}, MARCH);
    RebuiltTotal(b, card, range, false, [t], {}, MARCH);
    RowsDated(b, card, range, [t], {}, MARCH);
  }
}
