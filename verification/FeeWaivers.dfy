/** The fee-waiver rebuild: each rule's current window recounted over the card's spends. */
module FeeWaivers {
  import opened Basics
  import opened Calendar
  import opened Cycles
  import opened CardRecords
  import opened CardModel
  import opened CardReplay
  import opened CardAgreement

  const FEE_WINDOW_MARGIN_DAYS := 5

  datatype FeeWindow = FeeWindow(rule: Rule, bounds: Bounds)

  function SpendDay(t: Txn): int { UtcDay(t.context.occurred) }

  /** `feeWaiverWindows`: the windows of `day` as the live path keys them. */
  function FeeWindowsOf(card: Card, rules: seq<Rule>, day: int): (ws: seq<FeeWindow>)
    ensures |ws| == |rules|
    ensures forall i :: 0 <= i < |ws| ==> ws[i] == FeeWindow(rules[i], card.windows.fee(rules[i].id, day))
  {
    if rules == [] then []
    else [FeeWindow(rules[0], card.windows.fee(rules[0].id, day))] + FeeWindowsOf(card, rules[1..], day)
  }

  function FeeKey(card: Card, w: FeeWindow): Key { Key(card.id, w.rule.id, w.bounds.start) }

  predicate FeeCounts(card: Card, t: Txn) {
    Eligible(t) && !card.engine.plan(t.context).excluded
  }

  /** A spend counts in a window when its own window starts with it. */
  predicate CountsIn(card: Card, w: FeeWindow, t: Txn) {
    && card.windows.fee(w.rule.id, SpendDay(t)).start == w.bounds.start
    && !(t.context.category.Some? && t.context.category.value in w.rule.excludedCategories)
  }

  function FeeEntriesIn(card: Card, ws: seq<FeeWindow>, t: Txn): seq<Entry>
    decreases |ws|
  {
    if ws == [] then []
    else
      (if CountsIn(card, ws[0], t) then [Entry(ws[0].rule.id, ws[0].bounds.start, ws[0].bounds.end, t.context.amount,
                                               None)] else [])
      + FeeEntriesIn(card, ws[1..], t)
  }

  function NewFees(card: Card, ws: seq<FeeWindow>, t: Txn): seq<Entry> {
    if FeeCounts(card, t) then FeeEntriesIn(card, ws, t) else []
  }

  function AddTotals(card: Card, totals: map<Key, int>, es: seq<Entry>): map<Key, int>
    decreases |es|
  {
    if es == [] then totals
    else
      var k := KeyOf(card, es[0]);
      AddTotals(card, if k in totals then totals[k := totals[k] + es[0].delta] else totals, es[1..])
  }

  function ZeroTotals(card: Card, ws: seq<FeeWindow>): map<Key, int> {
    map i | 0 <= i < |ws| :: FeeKey(card, ws[i]) := 0
  }

  function Totals(card: Card, ws: seq<FeeWindow>, totals: map<Key, int>, ts: seq<Txn>): map<Key, int>
    decreases |ts|
  {
    if ts == [] then totals else Totals(card, ws, AddTotals(card, totals, NewFees(card, ws, ts[0])), ts[1..])
  }

  function NextFees(card: Card, ws: seq<FeeWindow>, t: Txn): seq<Entry> {
    Keep(EntriesOf(t.record, Fees), e => KeyOf(card, e) !in ZeroTotals(card, ws)) + NewFees(card, ws, t)
  }

  function NextFeeRecord(card: Card, ws: seq<FeeWindow>, t: Txn): Option<Record> {
    ToRecord(card.id, EntriesOf(t.record, Caps), EntriesOf(t.record, Milestones), NextFees(card, ws, t))
  }

  function FeeRecords(card: Card, ws: seq<FeeWindow>, ts: seq<Txn>): map<Id, Option<Record>>
    decreases |ts|
  {
    if ts == [] then map[]
    else
      var rest, next := FeeRecords(card, ws, ts[1..]), NextFeeRecord(card, ws, ts[0]);
      if Canonical(next) == Canonical(ts[0].record) then rest else rest[ts[0].id := next]
  }

  /** The row a window ends with: none is made for a window without spend. */
  function FeeRow(table: Table, k: Key, w: FeeWindow, qualified: int, threshold: Id -> int): Table {
    if k !in table && qualified == 0 then table
    else table[k := Row(w.bounds.end, qualified, FeeMark(qualified >= threshold(w.rule.id)))]
  }

  function FeeRows(card: Card, table: Table, ws: seq<FeeWindow>, totals: map<Key, int>, threshold: Id -> int): Table
    decreases |ws|
  {
    if ws == [] then table
    else
      var k := FeeKey(card, ws[0]);
      FeeRows(card, FeeRow(table, k, ws[0], if k in totals then totals[k] else 0, threshold), ws[1..], totals,
              threshold)
  }

  /** The rebuild over ordered transactions. */
  function FeesRebuilt(b: Book, card: Card, day: int, ts: seq<Txn>, threshold: Id -> int): Book {
    var ws := FeeWindowsOf(card, card.fees, day);
    var records := FeeRecords(card, ws, ts);
    b.(fees := FeeRows(card, b.fees, ws, Totals(card, ws, ZeroTotals(card, ws), ts), threshold),
       txns := map id | id in b.txns :: b.txns[id].(record := if id in records then records[id] else b.txns[id].record))
  }

  // ---- what the rebuild finds -------------------------------------------------------------------

  predicate DistinctRules(rules: seq<Rule>) {
    forall i, j :: 0 <= i < j < |rules| ==> rules[i].id != rules[j].id
  }

  /** v1's windows: a spend is not before its window and at most a day past it, and windows that
      start together end together. */
  ghost predicate NearWindows(card: Card) {
    && (forall id, day :: InSpan(day) ==> card.windows.fee(id, day).start <= day <= card.windows.fee(id, day).end + 1)
    && (forall id, day, other ::
          card.windows.fee(id, day).start == card.windows.fee(id, other).start
          ==> card.windows.fee(id, day) == card.windows.fee(id, other))
  }

  function EarliestFee(ws: seq<FeeWindow>, acc: int): int
    decreases |ws|
  {
    if ws == [] then acc else EarliestFee(ws[1..], Min(acc, ws[0].bounds.start))
  }

  function LatestFee(ws: seq<FeeWindow>, acc: int): int
    decreases |ws|
  {
    if ws == [] then acc else LatestFee(ws[1..], Max(acc, ws[0].bounds.end))
  }

  /** The spends a fee-waiver rebuild selects: those within the margin of its windows. */
  predicate FeeSelected(card: Card, ws: seq<FeeWindow>, t: Txn)
    requires ws != []
  {
    && t.card == card.id && (t.record.Some? || Eligible(t))
    && EarliestFee(ws, ws[0].bounds.start) - FEE_WINDOW_MARGIN_DAYS <= SpendDay(t)
    && SpendDay(t) <= LatestFee(ws, ws[0].bounds.end) + FEE_WINDOW_MARGIN_DAYS
  }

  ghost predicate FeeLoads(b: Book, card: Card, ws: seq<FeeWindow>, ts: seq<Txn>)
    requires ws != []
  {
    DistinctIds(ts) && forall t :: t in ts <==> t.id in b.txns && b.txns[t.id] == t && FeeSelected(card, ws, t)
  }

  /** Ids are keys, records belong to their card, and fee entries name their spend's window. */
  ghost predicate GoodFees(b: Book, card: Card) {
    && (forall id :: id in b.txns ==> b.txns[id].id == id && InSpan(SpendDay(b.txns[id])))
    && (forall id :: id in b.txns && b.txns[id].record.Some? ==>
          (b.txns[id].record.value.card == card.id <==> b.txns[id].card == card.id))
    && (forall id, e :: id in b.txns && b.txns[id].card == card.id && e in EntriesOf(b.txns[id].record, Fees) ==>
          card.windows.fee(e.id, SpendDay(b.txns[id])).start == e.start)
  }

  // ---- sums -------------------------------------------------------------------------------------

  lemma {:induction false} AddTotalsSum(card: Card, totals: map<Key, int>, es: seq<Entry>)
    ensures var after := AddTotals(card, totals, es);
      after.Keys == totals.Keys
      && forall k: Key :: k in totals && k.card == card.id ==> after[k] == totals[k] + EntrySum(es, k.rule, k.start)
    decreases |es|
  {
    if es != [] {
      var k := KeyOf(card, es[0]);
      AddTotalsSum(card, if k in totals then totals[k := totals[k] + es[0].delta] else totals, es[1..]);
    }
  }

  function FeeSum(card: Card, ws: seq<FeeWindow>, ts: seq<Txn>, k: Key): nat
    decreases |ts|
  {
    if ts == [] then 0 else EntrySum(NewFees(card, ws, ts[0]), k.rule, k.start) + FeeSum(card, ws, ts[1..], k)
  }

  lemma {:induction false} TotalsSum(card: Card, ws: seq<FeeWindow>, totals: map<Key, int>, ts: seq<Txn>, k: Key)
    requires k in totals && k.card == card.id
    ensures var after := Totals(card, ws, totals, ts);
      after.Keys == totals.Keys && after[k] == totals[k] + FeeSum(card, ws, ts, k)
    decreases |ts|
  {
    if ts != [] {
      AddTotalsSum(card, totals, NewFees(card, ws, ts[0]));
      TotalsSum(card, ws, AddTotals(card, totals, NewFees(card, ws, ts[0])), ts[1..], k);
    }
  }

  lemma NextFeesSum(card: Card, ws: seq<FeeWindow>, t: Txn, k: Key)
    requires k in ZeroTotals(card, ws) && k.card == card.id
    ensures RecordSum(NextFeeRecord(card, ws, t), Fees, k) == EntrySum(NewFees(card, ws, t), k.rule, k.start)
  {
    var keep := e => KeyOf(card, e) !in ZeroTotals(card, ws);
    EntrySumKeep(EntriesOf(t.record, Fees), keep, k.rule, k.start);
    EntrySumConcat(Keep(EntriesOf(t.record, Fees), keep), NewFees(card, ws, t), k.rule, k.start);
    ToRecordSum(card.id, EntriesOf(t.record, Caps), EntriesOf(t.record, Milestones), NextFees(card, ws, t), Fees, k);
  }

  lemma {:induction false} FeeRecordsAt(card: Card, ws: seq<FeeWindow>, ts: seq<Txn>)
    requires DistinctIds(ts)
    ensures var u := FeeRecords(card, ws, ts);
      && u.Keys <= Ids(ts)
      && forall t :: t in ts ==>
           if Canonical(NextFeeRecord(card, ws, t)) == Canonical(t.record) then t.id !in u
           else t.id in u && u[t.id] == NextFeeRecord(card, ws, t)
    decreases |ts|
  {
    if ts != [] {
      hide NextFeeRecord, Canonical;
      TailIds(ts);
      FeeRecordsAt(card, ws, ts[1..]);
      forall t | t in ts && t != ts[0]
        ensures t in ts[1..] && t.id != ts[0].id
      {
        assert t in ts[1..];
        assert t.id in Ids(ts[1..]);
      }
    }
  }

  lemma {:induction false} FeeRowsAt(card: Card, table: Table, ws: seq<FeeWindow>, totals: map<Key, int>,
                                     threshold: Id -> int)
    requires forall i, j :: 0 <= i < j < |ws| ==> ws[i].rule.id != ws[j].rule.id
    requires forall i :: 0 <= i < |ws| ==> FeeKey(card, ws[i]) in totals
    ensures var after := FeeRows(card, table, ws, totals, threshold);
      && (forall i :: 0 <= i < |ws| ==>
            var k := FeeKey(card, ws[i]);
            && Value(after, k) == totals[k]
            && (k in after ==>
                  after[k].mark == FeeMark(totals[k] >= threshold(k.rule)) && after[k].end == ws[i].bounds.end))
      && (forall k :: (forall i :: 0 <= i < |ws| ==> FeeKey(card, ws[i]) != k) ==>
          (k in after <==> k in table) && (k in table ==> after[k] == table[k]))
    decreases |ws|
  {
    if ws != [] {
      var k := FeeKey(card, ws[0]);
      var next := FeeRow(table, k, ws[0], totals[k], threshold);
      FeeRowsAt(card, next, ws[1..], totals, threshold);
      assert forall i :: 0 <= i < |ws[1..]| ==> ws[1..][i] == ws[i + 1] && FeeKey(card, ws[i + 1]) != k;
      var after := FeeRows(card, table, ws, totals, threshold);
      assert after == FeeRows(card, next, ws[1..], totals, threshold);
      forall i | 0 <= i < |ws|
        ensures var j := FeeKey(card, ws[i]);
          Value(after, j) == totals[j]
          && (j in after ==>
                after[j].mark == FeeMark(totals[j] >= threshold(j.rule)) && after[j].end == ws[i].bounds.end)
      {
        if i > 0 {
          assert ws[1..][i - 1] == ws[i];
        }
      }
      forall j | forall i :: 0 <= i < |ws| ==> FeeKey(card, ws[i]) != j
        ensures (j in after <==> j in table) && (j in table ==> after[j] == table[j])
      {
        assert forall i :: 0 <= i < |ws[1..]| ==> FeeKey(card, ws[1..][i]) != j;
      }
    }
  }

  lemma {:induction false} FeeEdges(ws: seq<FeeWindow>, from: int, to: int)
    ensures EarliestFee(ws, from) <= from && LatestFee(ws, to) >= to
    ensures forall i :: 0 <= i < |ws| ==>
            EarliestFee(ws, from) <= ws[i].bounds.start && ws[i].bounds.end <= LatestFee(ws, to)
    decreases |ws|
  {
    if ws != [] {
      FeeEdges(ws[1..], Min(from, ws[0].bounds.start), Max(to, ws[0].bounds.end));
      forall i | 0 < i < |ws|
        ensures ws[1..][i - 1] == ws[i]
      {
      }
    }
  }

  /** A spend of the card with an entry in a rebuilt window is within the margin. */
  lemma FeeUnloadedZero(b: Book, card: Card, day: int, ts: seq<Txn>, i: nat, id: Id)
    requires NearWindows(card) && GoodFees(b, card) && i < |card.fees|
    requires var ws := FeeWindowsOf(card, card.fees, day); FeeLoads(b, card, ws, ts)
    requires id in b.txns && id !in Ids(ts)
    ensures RecordSum(b.txns[id].record, Fees, FeeKey(card, FeeWindowsOf(card, card.fees, day)[i])) == 0
  {
    var ws, t := FeeWindowsOf(card, card.fees, day), b.txns[id];
    var k := FeeKey(card, ws[i]);
    if t.record.Some? && t.card == card.id {
      assert t !in ts;
      FeeEdges(ws, ws[0].bounds.start, ws[0].bounds.end);
      var own := card.windows.fee(k.rule, SpendDay(t));
      assert card.windows.fee(k.rule, day) == ws[i].bounds;
      assert own.start <= SpendDay(t) <= own.end + 1;
      forall e | e in t.record.value.fees
        ensures e.id == k.rule ==> e.start != k.start
      {
        assert e in EntriesOf(b.txns[id].record, Fees);
      }
      EntrySumNone(t.record.value.fees, k.rule, k.start);
    }
  }

  lemma {:induction false} ListIsFeeSum(a: map<Id, Txn>, card: Card, ws: seq<FeeWindow>, ts: seq<Txn>, k: Key)
    requires forall t :: t in ts ==> t.id in a && RecordSum(a[t.id].record, Fees, k) == EntrySum(NewFees(card, ws, t),
        k.rule, k.start)
    ensures ListTotal(a, ts, Fees, k) == FeeSum(card, ws, ts, k)
    decreases |ts|
  {
    if ts != [] {
      ListIsFeeSum(a, card, ws, ts[1..], k);
    }
  }

  lemma FeeRecordKept(b: Book, card: Card, day: int, ts: seq<Txn>, threshold: Id -> int, t: Txn, k: Key)
    requires GoodFees(b, card) && card.fees != []
    requires var ws := FeeWindowsOf(card, card.fees, day); FeeLoads(b, card, ws, ts) && t in ts && k in ZeroTotals(card,
        ws)
    requires k.card == card.id
    ensures var a := FeesRebuilt(b, card, day, ts, threshold);
      t.id in a.txns
      && RecordSum(a.txns[t.id].record, Fees, k) == EntrySum(NewFees(card, FeeWindowsOf(card, card.fees, day), t),
                                                             k.rule, k.start)
  {
    var ws := FeeWindowsOf(card, card.fees, day);
    FeeRecordsAt(card, ws, ts);
    NextFeesSum(card, ws, t, k);
    hide NextFeeRecord, FeeRecords, FeeRows, Totals;
    var next := NextFeeRecord(card, ws, t);
    CanonicalSum(next, Fees, k);
    CanonicalSum(t.record, Fees, k);
  }

  /** After the rebuild every rule's current row is the sum of the matching entries over all
      records, and waived exactly when that sum reaches the threshold. */
  lemma FeeAgreement(b: Book, card: Card, day: int, ts: seq<Txn>, threshold: Id -> int, i: nat)
    requires NearWindows(card) && GoodFees(b, card) && DistinctRules(card.fees) && i < |card.fees|
    requires FeeLoads(b, card, FeeWindowsOf(card, card.fees, day), ts)
    ensures var a := FeesRebuilt(b, card, day, ts, threshold);
      var k := FeeKey(card, FeeWindowsOf(card, card.fees, day)[i]);
      && Value(a.fees, k) == Total(a.txns, Fees, k)
      && (k in a.fees ==> a.fees[k].mark == FeeMark(Total(a.txns, Fees, k) >= threshold(k.rule)))
  {
    var ws, a := FeeWindowsOf(card, card.fees, day), FeesRebuilt(b, card, day, ts, threshold);
    var k, totals := FeeKey(card, ws[i]), ZeroTotals(card, ws);
    assert k in totals && totals[k] == 0;
    TotalsSum(card, ws, totals, ts, k);
    FeeRowsAt(card, b.fees, ws, Totals(card, ws, totals, ts), threshold);
    forall t | t in ts
      ensures t.id in a.txns && RecordSum(a.txns[t.id].record, Fees, k) == EntrySum(NewFees(card, ws, t), k.rule,
          k.start)
    {
      FeeRecordKept(b, card, day, ts, threshold, t, k);
    }
    FeeRecordsAt(card, ws, ts);
    forall id | id in a.txns && id !in Ids(ts)
      ensures RecordSum(a.txns[id].record, Fees, k) == 0
    {
      FeeUnloadedZero(b, card, day, ts, i, id);
    }
    ListIsFeeSum(a.txns, card, ws, ts, k);
    TotalOfList(a.txns, ts, Fees, k);
  }

  // ---- the real windows --------------------------------------------------------------------------

  /** v1's cycle that opens in month `j`. */
  function V1Cell(j: int, s: int): Bounds {
    Bounds(StatementDate(j, s), MonthStart(j + 1) + Max(Min(s, LengthOf(j + 1)) - 1, 1) - 1)
  }

  lemma V1CycleIsCell(ref: int, s: int) returns (j: int)
    requires 1 <= s <= 31
    ensures StatementCycleBounds(ref, Some(s)) == V1Cell(j, s)
  {
    hide MonthStart, MonthIndexOf, LengthOf, StatementCycleBounds;
    var i := MonthIndexOf(UtcDay(ref));
    j := if DateOf(UtcDay(ref)) < s then i - 1 else i;
    V1CycleInMonths(ref, s);
  }

  lemma StatementDatesDiffer(i: int, j: int, s: int)
    requires 1 <= s <= 31 && i < j
    ensures StatementDate(i, s) < StatementDate(j, s)
  {
    MonthStep(i);
    MonthStartSpread(i + 1, j);
  }

  lemma V1CycleSameStart(a: int, b: int, s: int)
    requires 1 <= s <= 31
    requires StatementCycleBounds(a, Some(s)).start == StatementCycleBounds(b, Some(s)).start
    ensures StatementCycleBounds(a, Some(s)) == StatementCycleBounds(b, Some(s))
  {
    hide StatementCycleBounds, StatementDate, MonthStart;
    var i := V1CycleIsCell(a, s);
    var j := V1CycleIsCell(b, s);
    if i < j {
      StatementDatesDiffer(i, j, s);
    } else if j < i {
      StatementDatesDiffer(j, i, s);
    }
  }

  lemma MonthSameStart(a: int, b: int)
    requires CalendarMonthBounds(a).start == CalendarMonthBounds(b).start
    ensures CalendarMonthBounds(a) == CalendarMonthBounds(b)
  {
    hide CalendarMonthBounds, MonthStart, MonthIndexOf;
    MonthBounds(a);
    MonthBounds(b);
    MonthStartsDiffer(MonthIndexOf(UtcDay(a)), MonthIndexOf(UtcDay(b)));
  }

  /** v1's windows that start on the same day are the same window. */
  lemma V1SameStart(period: Period, a: int, b: int, statementDay: Option<int>)
    requires statementDay.Some? ==> 1 <= statementDay.value <= 31
    requires PeriodBounds(period, a, statementDay, NoAnchor, None).start == PeriodBounds(period, b, statementDay,
        NoAnchor, None).start
    ensures PeriodBounds(period, a, statementDay, NoAnchor, None) == PeriodBounds(period, b, statementDay, NoAnchor,
        None)
  {
    hide MonthStart, MonthIndexOf;
    match period {
      case Lifetime =>
      case Quarter =>
        QuarterCell(a);
        QuarterCell(b);
        MonthStartsDiffer(3 * (MonthIndexOf(UtcDay(a)) / 3), 3 * (MonthIndexOf(UtcDay(b)) / 3));
      case HalfYear =>
        HalfYearCell(a);
        HalfYearCell(b);
        MonthStartsDiffer(6 * (MonthIndexOf(UtcDay(a)) / 6), 6 * (MonthIndexOf(UtcDay(b)) / 6));
      case Annual =>
        YearCell(a);
        YearCell(b);
        MonthStartsDiffer(12 * YearOf(UtcDay(a)), 12 * YearOf(UtcDay(b)));
      case StatementCycle =>
        if statementDay.Some? {
          V1CycleSameStart(a, b, statementDay.value);
        } else {
          MonthSameStart(a, b);
        }
      case CalendarMonth => MonthSameStart(a, b);
    }
  }

  lemma MonthStartsDiffer(i: int, j: int)
    ensures MonthStart(i) == MonthStart(j) ==> i == j
  {
    if i < j {
      MonthStartSpread(i, j);
    } else {
      MonthStartSpread(j, i);
    }
  }

  /** A card whose fee windows are v1's, with any statement day the database allows. */
  lemma RealFeeWindowsNear(card: Card, periods: Id -> Period, statementDay: Option<int>)
    requires statementDay.Some? ==> 1 <= statementDay.value <= 31
    requires forall id, day :: card.windows.fee(id, day) == PeriodBounds(periods(id), MidnightOf(day), statementDay,
        NoAnchor, None)
    ensures NearWindows(card)
  {
    hide PeriodBounds;
    forall id, day | InSpan(day)
      ensures card.windows.fee(id, day).start <= day <= card.windows.fee(id, day).end + 1
    {
      V1SpendNearItsWindow(periods(id), MidnightOf(day), statementDay);
    }
    forall id, day, other | card.windows.fee(id, day).start == card.windows.fee(id, other).start
      ensures card.windows.fee(id, day) == card.windows.fee(id, other)
    {
      V1SameStart(periods(id), MidnightOf(day), MidnightOf(other), statementDay);
    }
  }
}
