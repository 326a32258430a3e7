/** The store as the recording code changes it: rows, records and ledger updated in place.
    The user's advisory lock makes each method one step; a savepoint is a copy of the fields. */
module CardStore {
  import opened Basics
  import opened Cycles
  import opened CardRecords
  import opened CardModel
  import opened CardLive
  import opened CardReplay
  import opened CardAgreement
  import opened CardIdempotent
  import opened CardRefinement
  import opened CardPlanner
  import opened FeeWaivers

  /** Where a hook call fails, if it does. */
  datatype Failure = NoFailure | WhileLoading | WhileRecording

  /** `applyTransactionV2`: when a planned row is stale, the periods around the spend are rebuilt
      without it first. */
  ghost predicate AppliesTo(b: Book, card: Card, openedOn: Option<int>, id: Id, threshold: Id -> int, after: Book)
    requires id in b.txns
  {
    var c := Cleared(b, id, threshold);
    if !Stale(card, c.caps, b.txns[id].context) then after == Recorded(c, card, id, threshold)
    else exists floor, ts :: AppliesAfter(c, card, openedOn, id, threshold, floor, ts, after)
  }

  /** The apply after a rebuild of the periods around the spend, which leaves the spend out. */
  ghost predicate AppliesAfter(c: Book, card: Card, openedOn: Option<int>, id: Id, threshold: Id -> int, floor: int,
                               ts: seq<Txn>, after: Book)
    requires id in c.txns
  {
    var t := c.txns[id];
    var range := RangeOf(card, Around(t, floor));
    && IsFloor(c.txns, card, openedOn, DayOf(t), floor) && Loads(c, card, range, ts)
    && id in Rebuilt(c, card, range, false, ts, {id}).txns
    && after == Recorded(Rebuilt(c, card, range, false, ts, {id}), card, id, threshold)
  }

  class Store {
    var caps: Table
    var milestones: Table
    var fees: Table
    var txns: map<Id, Txn>
    var ledger: map<Id, int>

    function Contents(): Book
      reads this
    {
      Book(caps, milestones, fees, txns, ledger)
    }

    constructor ()
      ensures Contents() == Book(map[], map[], map[], map[], map[])
    {
      caps, milestones, fees, txns, ledger := map[], map[], map[], map[], map[];
    }

    method Restore(b: Book)
      modifies this
      ensures Contents() == b
    {
      caps, milestones, fees, txns, ledger := b.caps, b.milestones, b.fees, b.txns, b.ledger;
    }

    method SubtractCaps(card: Id, es: seq<Entry>)
      modifies this`caps
      ensures caps == Subtract(old(caps), card, es)
    {
      var i := 0;
      while i < |es|
        invariant 0 <= i <= |es|
        invariant Subtract(caps, card, es[i..]) == Subtract(old(caps), card, es)
      {
        var k := Key(card, es[i].id, es[i].start);
        if k in caps {
          caps := caps[k := caps[k].(value := Max(0, caps[k].value - es[i].delta))];
        }
        assert es[i..][1..] == es[i + 1..];
        i := i + 1;
      }
      assert es[|es|..] == [];
    }

    method SubtractMilestones(card: Id, es: seq<Entry>)
      modifies this`milestones
      ensures milestones == Subtract(old(milestones), card, es)
    {
      var i := 0;
      while i < |es|
        invariant 0 <= i <= |es|
        invariant Subtract(milestones, card, es[i..]) == Subtract(old(milestones), card, es)
      {
        var k := Key(card, es[i].id, es[i].start);
        if k in milestones {
          milestones := milestones[k := milestones[k].(value := Max(0, milestones[k].value - es[i].delta))];
        }
        assert es[i..][1..] == es[i + 1..];
        i := i + 1;
      }
      assert es[|es|..] == [];
    }

    method SubtractFeeWaivers(card: Id, es: seq<Entry>, threshold: Id -> int)
      modifies this`fees
      ensures fees == SubtractFees(old(fees), card, es, threshold)
    {
      var i := 0;
      while i < |es|
        invariant 0 <= i <= |es|
        invariant SubtractFees(fees, card, es[i..], threshold) == SubtractFees(old(fees), card, es, threshold)
      {
        var k := Key(card, es[i].id, es[i].start);
        if k in fees {
          fees := fees[k := fees[k].(value := Max(0, fees[k].value - es[i].delta))];
          fees := fees[k := Settle(fees[k], threshold(k.rule))];
        }
        assert es[i..][1..] == es[i + 1..];
        i := i + 1;
      }
      assert es[|es|..] == [];
    }

    /** `reverseRecord`. */
    method ReverseRecord(record: Option<Record>, threshold: Id -> int)
      modifies this`caps, this`milestones, this`fees
      ensures Contents() == Undo(old(Contents()), record, threshold)
    {
      if record.Some? {
        SubtractCaps(record.value.card, record.value.caps);
        SubtractMilestones(record.value.card, record.value.milestones);
        SubtractFeeWaivers(record.value.card, record.value.fees, threshold);
      }
    }

    method AddCapEntries(card: Id, moves: seq<Move>)
      modifies this`caps
      ensures caps == AddCaps(old(caps), card, moves)
    {
      var i := 0;
      while i < |moves|
        invariant 0 <= i <= |moves|
        invariant AddCaps(caps, card, moves[i..]) == AddCaps(old(caps), card, moves)
      {
        var e := moves[i].entry;
        var k := Key(card, e.id, e.start);
        caps := caps[k := Row(e.end, Max(0, Value(caps, k) + e.delta), CapMarkOf(moves[i]))];
        assert moves[i..][1..] == moves[i + 1..];
        i := i + 1;
      }
      assert moves[|moves|..] == [];
    }

    method AddMilestoneProgress(card: Id, moves: seq<Move>)
      modifies this`milestones
      ensures milestones == AddMilestones(old(milestones), card, moves)
    {
      var i := 0;
      while i < |moves|
        invariant 0 <= i <= |moves|
        invariant AddMilestones(milestones, card, moves[i..]) == AddMilestones(old(milestones), card, moves)
      {
        var e := moves[i].entry;
        var k := Key(card, e.id, e.start);
        milestones := milestones[k := Row(e.end, Max(0, Value(milestones, k) + e.delta),
                                          MilestoneMark(moves[i].approximate))];
        assert moves[i..][1..] == moves[i + 1..];
        i := i + 1;
      }
      assert moves[|moves|..] == [];
    }

    method AddFeeProgress(card: Id, moves: seq<Move>, threshold: Id -> int)
      modifies this`fees
      ensures fees == AddFees(old(fees), card, moves, threshold)
    {
      var i := 0;
      while i < |moves|
        invariant 0 <= i <= |moves|
        invariant AddFees(fees, card, moves[i..], threshold) == AddFees(old(fees), card, moves, threshold)
      {
        var e := moves[i].entry;
        var k := Key(card, e.id, e.start);
        fees := AddFeeRow(fees, k, e.end, e.delta);
        fees := fees[k := Settle(fees[k], threshold(k.rule))];
        assert moves[i..][1..] == moves[i + 1..];
        i := i + 1;
      }
      assert moves[|moves|..] == [];
    }

    /** Prices the spend against the stored rows and records it. */
    method Record(card: Card, id: Id, threshold: Id -> int)
      requires id in txns
      modifies this
      ensures Contents() == Recorded(old(Contents()), card, id, threshold)
    {
      var t := txns[id];
      var out := Compute(card, t.context, caps);
      var ms := MilestoneEntries(card, t.context, out.excluded);
      var fs := FeeEntries(card, t.context, out.excluded);
      AddCapEntries(card.id, out.moves);
      AddMilestoneProgress(card.id, ms);
      AddFeeProgress(card.id, fs, threshold);
      var record := ToRecord(card.id, Entries(out.moves), Entries(ms), Entries(fs));
      txns := txns[id := t.(record := record, expected := Expected(Some(out.native), Some(out.value), out.cashback))];
      if out.native > 0 {
        ledger := ledger[id := out.native];
      }
    }

    /** Whether one of the planned cap rows was written by the v1 path. */
    method ReadStale(card: Card, ctx: Context) returns (stale: bool)
      ensures stale == Stale(card, caps, ctx)
    {
      stale := false;
      var planned, i := card.engine.plan(ctx).caps, 0;
      while i < |planned|
        invariant 0 <= i <= |planned|
        invariant stale <==> exists j :: 0 <= j < i && StaleAt(card, caps, ctx, planned[j].id)
      {
        stale := stale || StaleAt(card, caps, ctx, planned[i].id);
        i := i + 1;
      }
      if stale {
        var j :| 0 <= j < |planned| && StaleAt(card, caps, ctx, planned[j].id);
        assert planned[j].id in PlannedIds(planned);
      }
    }

    /** `cardFloorDay`. */
    method CardFloor(card: Card, openedOn: Option<int>, asOf: int) returns (floor: int)
      ensures IsFloor(txns, card, openedOn, asOf, floor)
    {
      var first, todo := openedOn, txns.Keys;
      while todo != {}
        invariant todo <= txns.Keys
        invariant openedOn.Some? ==> first.Some? && first.value <= openedOn.value
        invariant forall id :: id in txns && id !in todo && txns[id].card == card.id ==>
                  first.Some? && first.value <= DayOf(txns[id])
        invariant first.Some? ==> first == openedOn || exists id ::
          id in txns && txns[id].card == card.id && DayOf(txns[id]) == first.value
        decreases |todo|
      {
        var id :| id in todo;
        if txns[id].card == card.id && (first.None? || DayOf(txns[id]) < first.value) {
          first := Some(DayOf(txns[id]));
        }
        todo := todo - {id};
      }
      floor := if first.Some? then first.value else asOf;
    }

    /** The rest of an apply that met a row of the v1 path. */
    method RebuildAround(card: Card, openedOn: Option<int>, id: Id, threshold: Id -> int)
      requires id in txns && forall j :: j in txns ==> txns[j].id == j
      modifies this
      ensures exists floor, ts :: AppliesAfter(old(Contents()), card, openedOn, id, threshold, floor, ts, Contents())
    {
      ghost var c := Contents();
      var t := txns[id];
      var floor := CardFloor(card, openedOn, DayOf(t));
      var range := RebuildRange(card, Around(t, floor));
      ghost var ts := Rebuild(card, range, false, {id});
      assert id in txns;
      Record(card, id, threshold);
      assert AppliesAfter(c, card, openedOn, id, threshold, floor, ts, Contents());
    }

    /** `applyTransactionV2`. */
    method ApplyTransaction(card: Card, openedOn: Option<int>, id: Id, threshold: Id -> int)
      requires id in txns && forall j :: j in txns ==> txns[j].id == j
      modifies this
      ensures AppliesTo(old(Contents()), card, openedOn, id, threshold, Contents())
    {
      var t := txns[id];
      if t.record.Some? {
        ReverseRecord(t.record, threshold);
        ledger := ledger - {id};
      }
      assert Contents() == Cleared(old(Contents()), id, threshold);
      var stale := ReadStale(card, t.context);
      if stale {
        RebuildAround(card, openedOn, id, threshold);
      } else {
        Record(card, id, threshold);
      }
    }

    /** `reverseTransactionV2`. */
    method ReverseTransaction(id: Id, threshold: Id -> int)
      requires id in txns
      modifies this
      ensures Contents() == Reversed(old(Contents()), id, threshold)
    {
      ReverseRecord(txns[id].record, threshold);
      txns := txns[id := txns[id].(record := None, expected := ZeroedExpected(txns[id].expected))];
      ledger := ledger - {id};
    }

    /** `applyIfV2`: `card` is None for a v1-shaped card; a failed call is rolled back to its
        savepoint and defers to the next rebuild. Returns whether the v2 path handled the call. */
    method ApplyIf(card: Option<Card>, openedOn: Option<int>, id: Id, reverse: bool, failure: Failure,
                   threshold: Id -> int)
      returns (handled: bool)
      requires id in txns && forall j :: j in txns ==> txns[j].id == j
      modifies this
      ensures handled <==> card.Some? && failure != WhileLoading
      ensures !handled ==> Contents() == old(Contents())
      ensures handled && failure == WhileRecording ==>
                Contents() == if reverse then Detached(old(Contents()), id) else DeferredApply(old(Contents()), id)
      ensures handled && failure == NoFailure && reverse ==> Contents() == Reversed(old(Contents()), id, threshold)
      ensures handled && failure == NoFailure && !reverse ==>
                AppliesTo(old(Contents()), card.value, openedOn, id, threshold, Contents())
    {
      hide AppliesTo, Undo, Recorded, Cleared, Detached, DeferredApply, Reversed;
      var savepoint := Contents();
      handled := false;
      if failure == WhileLoading || card.None? {
        return;
      }
      handled := true;
      if reverse {
        ReverseTransaction(id, threshold);
      } else {
        ApplyTransaction(card.value, openedOn, id, threshold);
      }
      if failure == WhileRecording {
        Restore(savepoint);
        Defer(id, reverse);
      }
    }

    /** What a failed call still does to its transaction. */
    method Defer(id: Id, reverse: bool)
      requires id in txns
      modifies this`txns, this`ledger
      ensures Contents() == if reverse then Detached(old(Contents()), id) else DeferredApply(old(Contents()), id)
    {
      txns := txns[id := txns[id].(record := None)];
      if reverse {
        txns := txns[id := txns[id].(expected := ZeroedExpected(txns[id].expected))];
        ledger := ledger - {id};
      }
    }

    /** The rows a rebuild selects, ordered by time and id. */
    method Load(card: Card, range: Range) returns (ts: seq<Txn>)
      requires forall j :: j in txns ==> txns[j].id == j
      ensures Loads(Contents(), card, range, ts) && DistinctIds(ts)
    {
      ts := [];
      var todo := txns.Keys;
      while todo != {}
        invariant todo <= txns.Keys && Ordered(ts)
        invariant forall t :: t in ts <==> t.id in txns && t.id !in todo && txns[t.id] == t && Selected(card, range, t)
        decreases |todo|
      {
        var id :| id in todo;
        if Selected(card, range, txns[id]) {
          InsertTxnOrdered(txns[id], ts);
          ts := InsertTxn(txns[id], ts);
        }
        todo := todo - {id};
      }
      LoadedDistinct(Contents(), card, range, ts);
    }

    /** `rebuildCardState`: loads, plans and applies. */
    method Rebuild(card: Card, range: Range, expected: bool, excluded: set<Id>) returns (ts: seq<Txn>)
      requires forall j :: j in txns ==> txns[j].id == j
      modifies this
      ensures Loads(old(Contents()), card, range, ts)
      ensures Contents() == Rebuilt(old(Contents()), card, range, expected, ts, excluded)
    {
      ts := Load(card, range);
      var b := Contents();
      var plan := PlanReplay(card, range, ts, expected, excluded, ExistingCaps(b, card, range),
                             ExistingMilestones(b, card, range));
      SortTxnsOrdered(ts);
      OrderUnique(SortTxns(ts), ts);
      ApplyRebuild(plan);
    }

    /** `applyCardRebuild`: writes only what differs. */
    method ApplyRebuild(plan: Plan)
      requires forall j :: j in txns ==> txns[j].id == j
      modifies this
      ensures Contents() == ApplyPlan(old(Contents()), plan)
    {
      hide Written, UpdatedLedger;
      caps := WriteRows(caps, plan.caps, plan.capsChanged, plan.capsToDelete);
      milestones := WriteRows(milestones, plan.milestones, plan.milestonesChanged, plan.milestonesToDelete);
      WriteRecords(plan.records);
      WriteExpected(plan.expected);
      UpdatedTogether(plan, old(txns));
    }

    method WriteRecords(records: map<Id, Option<Record>>)
      modifies this`txns
      ensures txns == WithRecords(old(txns), records)
    {
      var todo := records.Keys;
      while todo != {}
        invariant todo <= records.Keys && txns == WithRecords(old(txns), records - todo)
        decreases |todo|
      {
        var id :| id in todo;
        if id in txns {
          txns := txns[id := txns[id].(record := records[id])];
        }
        RecordStep(old(txns), records, todo, id);
        todo := todo - {id};
      }
      assert records - {} == records;
    }

    method WriteExpected(expected: map<Id, Expected>)
      modifies this`txns, this`ledger
      ensures txns == WithExpected(old(txns), expected)
      ensures ledger == UpdatedLedger(old(ledger), expected)
    {
      hide WithExpected, UpdatedLedger;
      var todo := expected.Keys;
      NothingExpected(txns, ledger);
      assert expected - todo == map[];
      while todo != {}
        invariant todo <= expected.Keys && txns.Keys == old(txns).Keys
        invariant txns == WithExpected(old(txns), expected - todo)
        invariant ledger == UpdatedLedger(old(ledger), expected - todo)
        decreases |todo|
      {
        var id :| id in todo;
        var u := expected[id];
        if id in txns {
          txns := txns[id := txns[id].(expected := u)];
        }
        ledger := ledger - {id};
        if Pays(u) {
          ledger := ledger[id := u.native.value];
        }
        LedgerStep(old(ledger), expected, todo, id);
        ExpectedStep(old(txns), expected, todo, id);
        todo := todo - {id};
      }
      assert expected - {} == expected;
    }

    /** `applyFeeWaiverRebuild` of the current windows. */
    method RebuildFees(card: Card, day: int, ts: seq<Txn>, threshold: Id -> int)
      requires DistinctIds(ts)
      modifies this
      ensures Contents() == FeesRebuilt(old(Contents()), card, day, ts, threshold)
    {
      hide FeeRows, Totals, FeeRecords, ZeroTotals;
      var ws := FeeWindowsOf(card, card.fees, day);
      var totals, records := PlanFeeWaivers(card, ws, ts);
      var i := 0;
      assert ws[0..] == ws;
      while i < |ws|
        invariant 0 <= i <= |ws| && caps == old(caps) && milestones == old(milestones) && txns == old(txns)
                  && ledger == old(ledger)
        invariant FeeRows(card, fees, ws[i..], totals, threshold) == FeeRows(card, old(fees), ws, totals, threshold)
      {
        var k := FeeKey(card, ws[i]);
        var qualified := if k in totals then totals[k] else 0;
        ghost var before := fees;
        if k in fees || qualified != 0 {
          fees := fees[k := Row(ws[i].bounds.end, qualified, FeeMark(k in fees && fees[k].mark.FeeMark?
                                                                     && fees[k].mark.waived))];
          fees := fees[k := Settle(fees[k], threshold(k.rule))];
        }
        assert fees == FeeRow(before, k, ws[i], qualified, threshold);
        FeeRowsTail(card, before, ws, i, totals, threshold);
        i := i + 1;
      }
      FeeRowsNone(card, fees, totals, threshold);
      assert ws[|ws|..] == [];
      WriteRecords(records);
    }
  }

  predicate StaleAt(card: Card, rows: Table, ctx: Context, id: Id) {
    var k := Key(card.id, id, card.windows.cap(id, IstDay(ctx.occurred)).start);
    k in rows && rows[k].mark.CapMark? && rows[k].mark.kind.None?
  }

  function WithRecords(txns: map<Id, Txn>, records: map<Id, Option<Record>>): map<Id, Txn> {
    map id | id in txns :: txns[id].(record := if id in records then records[id] else txns[id].record)
  }

  function WithExpected(txns: map<Id, Txn>, expected: map<Id, Expected>): map<Id, Txn> {
    map id | id in txns :: txns[id].(expected := if id in expected then expected[id] else txns[id].expected)
  }

  lemma UpdatedTogether(plan: Plan, txns: map<Id, Txn>)
    requires forall j :: j in txns ==> txns[j].id == j
    ensures WithExpected(WithRecords(txns, plan.records), plan.expected) == map id | id in txns ::
      UpdatedTxn(plan, txns[id])
  {
  }

  lemma RecordStep(txns: map<Id, Txn>, records: map<Id, Option<Record>>, todo: set<Id>, id: Id)
    requires id in todo && id in records
    ensures var before := WithRecords(txns, records - todo);
      WithRecords(txns, records - (todo - {id})) == if id in txns then before[id := before[id].(record := records[id])]
      else before
  {
  }

  lemma ExpectedStep(txns: map<Id, Txn>, expected: map<Id, Expected>, todo: set<Id>, id: Id)
    requires id in todo && id in expected
    ensures var before := WithExpected(txns, expected - todo);
      WithExpected(txns, expected - (todo - {id}))
          == if id in txns then before[id := before[id].(expected := expected[id])] else before
  {
  }

  lemma NothingExpected(txns: map<Id, Txn>, ledger: map<Id, int>)
    ensures WithExpected(txns, map[]) == txns && UpdatedLedger(ledger, map[]) == ledger
  {
  }

  lemma FeeRowsTail(card: Card, table: Table, ws: seq<FeeWindow>, i: nat, totals: map<Key, int>, threshold: Id -> int)
    requires i < |ws|
    ensures var k := FeeKey(card, ws[i]);
      FeeRows(card, table, ws[i..], totals, threshold)
      == FeeRows(card, FeeRow(table, k, ws[i], if k in totals then totals[k] else 0, threshold), ws[i + 1..], totals,
                 threshold)
  {
  }

  lemma FeeRowsNone(card: Card, table: Table, totals: map<Key, int>, threshold: Id -> int)
    ensures FeeRows(card, table, [], totals, threshold) == table
  {
  }

  predicate Pays(u: Expected) { u.native.Some? && u.native.value > 0 }

  lemma LedgerAt(ledger: map<Id, int>, expected: map<Id, Expected>, id: Id)
    ensures var after := UpdatedLedger(ledger, expected);
      && (id in after <==> if id in expected then Pays(expected[id]) else id in ledger)
      && (id in after ==> after[id] == if id in expected then expected[id].native.value else ledger[id])
  {
  }

  lemma LedgerStep(ledger: map<Id, int>, expected: map<Id, Expected>, todo: set<Id>, id: Id)
    requires id in todo && id in expected
    ensures var u, before := expected[id], UpdatedLedger(ledger, expected - todo) - {id};
      UpdatedLedger(ledger, expected - (todo - {id})) == if Pays(u) then before[id := u.native.value] else before
  {
    hide UpdatedLedger;
    var more, less := expected - (todo - {id}), expected - todo;
    forall j
      ensures j in more <==> j == id || j in less
      ensures j in more ==> more[j] == expected[j]
    {
    }
    var after, u, before := UpdatedLedger(ledger, more), expected[id], UpdatedLedger(ledger, less) - {id};
    var next := if Pays(u) then before[id := u.native.value] else before;
    forall j
      ensures (j in after <==> j in next) && (j in after ==> after[j] == next[j])
    {
      LedgerAt(ledger, more, j);
      LedgerAt(ledger, less, j);
    }
  }

  function Upserted(table: Table, rows: Table, keys: set<Key>): Table {
    table + map k | k in rows && k in keys :: rows[k]
  }

  lemma UpsertStep(table: Table, rows: Table, keys: set<Key>, k: Key)
    requires k in rows
    ensures Upserted(table, rows, keys + {k}) == Upserted(table, rows, keys)[k := rows[k]]
  {
  }

  lemma UpsertEdges(table: Table, rows: Table, keys: set<Key>)
    ensures Upserted(table, rows, {}) == table && Upserted(table, rows, keys * rows.Keys) == Upserted(table, rows, keys)
  {
  }

  /** The upserts and deletions of one counter table. */
  method WriteRows(table: Table, rows: Table, changed: set<Key>, deletes: set<Key>) returns (after: Table)
    ensures after == Written(table, rows, changed, deletes)
  {
    after := UpsertRows(table, rows, changed);
    after := DeleteRows(after, deletes);
  }

  method UpsertRows(table: Table, rows: Table, changed: set<Key>) returns (after: Table)
    ensures after == Upserted(table, rows, changed)
  {
    hide Upserted;
    UpsertEdges(table, rows, changed);
    after := table;
    var done, todo := {}, changed * rows.Keys;
    while todo != {}
      invariant done + todo == changed * rows.Keys && after == Upserted(table, rows, done)
      decreases |todo|
    {
      var k :| k in todo;
      after := after[k := rows[k]];
      UpsertStep(table, rows, done, k);
      assert (done + {k}) + (todo - {k}) == done + todo;
      done, todo := done + {k}, todo - {k};
    }
    assert done == changed * rows.Keys;
  }

  method DeleteRows(table: Table, deletes: set<Key>) returns (after: Table)
    ensures after == table - deletes
  {
    after := table;
    var todo := deletes;
    while todo != {}
      invariant todo <= deletes && after == table - (deletes - todo)
      decreases |todo|
    {
      var k :| k in todo;
      after := after - {k};
      todo := todo - {k};
    }
    assert deletes - {} == deletes;
  }

  /** In a store that only this recording has written, no row is stale: an apply is `Applied`. */
  lemma NeverStale(b: Book, card: Card, openedOn: Option<int>, id: Id, threshold: Id -> int, after: Book)
    requires Consistent(b, threshold) && id in b.txns
    ensures AppliesTo(b, card, openedOn, id, threshold, after) <==> after == Applied(b, card, id, threshold)
  {
    UndoConsistent(b, id, threshold);
    assert KindsKnown(Cleared(b, id, threshold).caps);
  }

  // ---- a stale row -------------------------------------------------------------------------------

  lemma {:induction false} SubtractNonNegative(t: Table, card: Id, es: seq<Entry>)
    requires NonNegative(t)
    ensures NonNegative(Subtract(t, card, es))
    decreases |es|
  {
    if es != [] {
      var after := SubtractRow(t, Key(card, es[0].id, es[0].start), es[0].delta);
      forall k
        ensures Value(after, k) >= 0
      {
        assert Value(t, k) >= 0;
      }
      SubtractNonNegative(after, card, es[1..]);
    }
  }

  lemma WrittenNonNegative(table: Table, rows: Table, changed: set<Key>, deletes: set<Key>)
    requires NonNegative(table)
    ensures NonNegative(Written(table, Positive(rows), changed, deletes))
  {
    forall k
      ensures Value(Written(table, Positive(rows), changed, deletes), k) >= 0
    {
      assert Value(table, k) >= 0;
    }
  }

  lemma RebuiltClean(b: Book, card: Card, range: Range, expected: bool, ts: seq<Txn>, excluded: set<Id>)
    requires Clean(b)
    ensures Clean(Rebuilt(b, card, range, expected, ts, excluded))
  {
    hide ReplayOf, MilestoneReplay, MilestoneSlots, Written, Changed, Emptied, Moved, RecordUpdates, ExpectedUpdates;
    var rows, slots := ReplayOf(card, range, ts, excluded).rows, MilestoneSlots(map[], card, range.milestones);
    var counted := MilestoneReplay(card, slots, slots, ts, excluded);
    var plan := PlanOf(card, range, ts, expected, excluded, ExistingCaps(b, card, range),
                       ExistingMilestones(b, card, range));
    WrittenNonNegative(b.caps, rows, plan.capsChanged, plan.capsToDelete);
    WrittenNonNegative(b.milestones, counted, plan.milestonesChanged, plan.milestonesToDelete);
  }

  /** Recording a transaction the store has without a record moves its counters and the sums alike. */
  lemma RecordedMovesBoth(r: Book, card: Card, id: Id, threshold: Id -> int, k: Key)
    requires Clean(r) && id in r.txns
    ensures var a := Recorded(r, card, id, threshold);
      Value(a.caps, k) - Total(a.txns, Caps, k) == Value(r.caps, k) - Total(Kept(r, {id}), Caps, k)
  {
    hide Recorded, Total;
    var a := Recorded(r, card, id, threshold);
    RecordedSum(r, card, id, threshold, Caps, k);
    RecordedOnly(r, card, id, threshold);
    TotalPick(a.txns, id, Caps, k);
    assert a.txns - {id} == Kept(r, {id});
  }

  /** An apply that met a stale row leaves every row it rebuilt equal to the sum of all records, the
      new one included, whatever the v1 path had written there: unless the rebuild did not see the
      stored row, found nothing to count, and the row held something. */
  lemma StaleApplyAgrees(c: Book, card: Card, range: Range, expected: bool, ts: seq<Txn>, id: Id, threshold: Id -> int,
                         k: Key)
    requires Rebuilding(c, card, range, ts) && Clean(c) && id in c.txns && k in RowsOf(card, range, ts, {id})
    ensures var r := Rebuilt(c, card, range, expected, ts, {id});
      && id in r.txns
      && var a := Recorded(r, card, id, threshold);
         Value(a.caps, k) == Total(a.txns, Caps, k)
         <==> Found(c, range, k) || RowsOf(card, range, ts, {id})[k].value > 0 || Value(c.caps, k) == 0
  {
    hide Recorded, Total, RowsOf, Rebuilding, Clean, Rebuilt, Found, Kept, Value;
    var r := Rebuilt(c, card, range, expected, ts, {id});
    CapAgreesIff(c, card, range, expected, ts, {id}, k);
    RebuiltClean(c, card, range, expected, ts, {id});
    RebuiltHas(c, card, range, expected, ts, {id}, id);
    RecordedMovesBoth(r, card, id, threshold, k);
  }

  lemma RebuiltHas(b: Book, card: Card, range: Range, expected: bool, ts: seq<Txn>, excluded: set<Id>, id: Id)
    requires id in b.txns
    ensures id in Rebuilt(b, card, range, expected, ts, excluded).txns
  {
  }

  lemma RecordedOnly(b: Book, card: Card, id: Id, threshold: Id -> int)
    requires id in b.txns
    ensures var a := Recorded(b, card, id, threshold);
      id in a.txns && a.txns == b.txns[id := a.txns[id]]
  {
  }
}
