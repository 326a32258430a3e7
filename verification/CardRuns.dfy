/** Whole runs: live recording and its failures, edits, rows of the v1 path, card rebuilds and
    fee-waiver rebuilds, of any cards in any order. Every store they reach is one the rebuild
    theorems are about. */
module CardRuns {
  import opened Basics
  import opened Cycles
  import opened CardRecords
  import opened CardModel
  import opened CardLive
  import opened CardReplay
  import opened CardRange
  import opened CardAgreement
  import opened CardMilestones
  import opened CardIdempotent
  import opened CardRefinement
  import opened FeeWaivers
  import opened CardStore

  /** The user's cards, whose terms and dates do not change during a run. */
  type Cards = Id -> Card

  ghost predicate GoodCards(cards: Cards) {
    forall id :: cards(id).id == id && Sound(cards(id)) && TiledMilestones(cards(id))
  }

  // ---- what every reachable store keeps -----------------------------------------------------------

  ghost predicate DatedMilestone(card: Card, day: int, e: Entry) {
    var w := card.windows.milestone(e.id, day);
    w.Some? && w.value.start == e.start && w.value.end == e.end
  }

  ghost predicate DatedFee(card: Card, t: Txn, e: Entry) { card.windows.fee(e.id, SpendDay(t)).start == e.start }

  /** A record belongs to its transaction's card, and its entries name the windows of its day. */
  ghost predicate DatedRecord(card: Card, t: Txn) {
    t.record.Some? ==>
      && t.record.value.card == card.id
      && (forall e :: e in t.record.value.caps ==> DatedCap(card, DayOf(t), e))
      && (forall e :: e in t.record.value.milestones ==> DatedMilestone(card, DayOf(t), e))
      && (forall e :: e in t.record.value.fees ==> DatedFee(card, t, e))
  }

  ghost predicate GoodTxn(cards: Cards, id: Id, t: Txn) {
    t.id == id && InSpan(DayOf(t)) && InSpan(SpendDay(t)) && DatedRecord(cards(t.card), t)
  }

  ghost predicate GoodTxns(txns: map<Id, Txn>, cards: Cards) {
    forall id :: id in txns ==> GoodTxn(cards, id, txns[id])
  }

  ghost predicate RowDated(cards: Cards, k: Key, row: Row) {
    k.rule in cards(k.card).caps ==>
      var w := cards(k.card).windows.cap(k.rule, k.start);
      w.start == k.start ==> w.end <= row.end
  }

  ghost predicate RowsDated(rows: Table, cards: Cards) {
    forall k :: k in rows ==> RowDated(cards, k, rows[k])
  }

  predicate Forward(rows: Table) {
    forall k :: k in rows ==> k.start <= rows[k].end
  }

  ghost predicate Good(b: Book, cards: Cards, threshold: Id -> int) {
    && GoodTxns(b.txns, cards) && RowsDated(b.caps, cards) && Forward(b.milestones)
    && Clean(b) && WaiversSettled(b.fees, threshold)
  }

  /** Such a store is what a rebuild of any of its cards expects. */
  lemma GoodIsGoodBook(b: Book, cards: Cards, threshold: Id -> int, c: Id)
    requires GoodCards(cards) && Good(b, cards, threshold)
    ensures GoodBook(b, cards(c)) && StoredRowsDated(cards(c), b.caps) && GoodFees(b, cards(c))
    ensures forall id :: id in b.txns && b.txns[id].card == c ==> DatedMilestones(cards(c), b.txns[id])
  {
    assert cards(c).id == c;
    forall id | id in b.txns
      ensures b.txns[id].id == id && InSpan(DayOf(b.txns[id])) && InSpan(SpendDay(b.txns[id]))
      ensures DatedRecord(cards(b.txns[id].card), b.txns[id]) && cards(b.txns[id].card).id == b.txns[id].card
    {
      assert GoodTxn(cards, id, b.txns[id]);
    }
    forall id | id in b.txns && b.txns[id].card == c
      ensures DatedMilestones(cards(c), b.txns[id])
    {
      assert DatedRecord(cards(c), b.txns[id]);
      if b.txns[id].record.Some? {
        forall e | e in b.txns[id].record.value.milestones
          ensures DatedMilestone(cards(c), DayOf(b.txns[id]), e)
        {
        }
      }
    }
    forall k | k in b.caps && k.card == c
      ensures RowDated(cards, k, b.caps[k])
    {
    }
  }

  // ---- entries -------------------------------------------------------------------------------------

  lemma {:induction false} MilestoneMovesDated(card: Card, rules: seq<Rule>, ctx: Context)
    ensures forall e :: e in Entries(MilestoneMoves(card, rules, ctx)) ==> DatedMilestone(card, IstDay(ctx.occurred), e)
  {
    if rules != [] {
      MilestoneMovesDated(card, rules[1..], ctx);
    }
  }

  lemma {:induction false} FeeMovesDated(card: Card, rules: seq<Rule>, t: Txn)
    ensures forall e :: e in Entries(FeeMoves(card, rules, t.context)) ==> DatedFee(card, t, e)
  {
    if rules != [] {
      FeeMovesDated(card, rules[1..], t);
    }
  }

  lemma {:induction false} FeeEntriesDated(card: Card, ws: seq<FeeWindow>, t: Txn)
    ensures forall e :: e in FeeEntriesIn(card, ws, t) ==> DatedFee(card, t, e)
    decreases |ws|
  {
    if ws != [] {
      FeeEntriesDated(card, ws[1..], t);
    }
  }

  ghost predicate AllDated(card: Card, t: Txn, caps: seq<Entry>, milestones: seq<Entry>, fees: seq<Entry>) {
    && (forall e :: e in caps ==> DatedCap(card, DayOf(t), e))
    && (forall e :: e in milestones ==> DatedMilestone(card, DayOf(t), e))
    && (forall e :: e in fees ==> DatedFee(card, t, e))
  }

  /** A record made of dated entries is dated. */
  lemma ToRecordDated(card: Card, t: Txn, caps: seq<Entry>, milestones: seq<Entry>, fees: seq<Entry>)
    requires AllDated(card, t, caps, milestones, fees)
    ensures DatedRecord(card, t.(record := ToRecord(card.id, caps, milestones, fees)))
  {
    SortMembers(caps);
    SortMembers(milestones);
    SortMembers(fees);
    hide SortEntries, DatedCap, DatedMilestone;
    assert DayOf(t.(record := ToRecord(card.id, caps, milestones, fees))) == DayOf(t);
    assert forall e :: DatedFee(card, t.(record := ToRecord(card.id, caps, milestones, fees)), e) <==> DatedFee(card, t,
        e);
  }

  lemma StoredDated(card: Card, t: Txn)
    requires DatedRecord(card, t)
    ensures AllDated(card, t, EntriesOf(t.record, Caps), EntriesOf(t.record, Milestones), EntriesOf(t.record, Fees))
  {
  }

  lemma EntryOfMove(moves: seq<Move>, e: Entry)
    requires e in Entries(moves)
    ensures exists i :: 0 <= i < |moves| && e == moves[i].entry
  {
  }

  lemma MovedEntriesDated(card: Card, day: int, moves: seq<Move>)
    requires MovesDated(card, day, moves)
    ensures forall e :: e in Entries(moves) ==> e.id in card.caps && DatedCap(card, day, e)
  {
    hide DatedCap;
    forall e | e in Entries(moves)
      ensures e.id in card.caps && DatedCap(card, day, e)
    {
      EntryOfMove(moves, e);
    }
  }

  lemma ComputedDated(card: Card, ctx: Context, rows: Table)
    requires OwnCaps(card)
    ensures MovesDated(card, IstDay(ctx.occurred), Compute(card, ctx, rows).moves)
  {
    var plan, day := card.engine.plan(ctx), IstDay(ctx.occurred);
    CapMovesDated(card, plan.caps, card.engine.price(ctx, ConsumedBefore(card, rows, plan.caps, day)).deltas, day);
  }

  // ---- live operations -----------------------------------------------------------------------------

  lemma OneTxnGood(b: Book, a: Book, cards: Cards, id: Id)
    requires GoodTxns(b.txns, cards) && a.txns.Keys <= b.txns.Keys + {id}
    requires forall other :: other in a.txns && other != id ==> a.txns[other] == b.txns[other]
    requires id in a.txns ==> GoodTxn(cards, id, a.txns[id])
    ensures GoodTxns(a.txns, cards)
  {
  }

  lemma RecordedTxnGood(b: Book, cards: Cards, id: Id, threshold: Id -> int)
    requires GoodCards(cards) && GoodTxns(b.txns, cards) && id in b.txns
    ensures GoodTxns(Recorded(b, cards(b.txns[id].card), id, threshold).txns, cards)
  {
    var t, card := b.txns[id], cards(b.txns[id].card);
    var a := Recorded(b, card, id, threshold);
    assert GoodTxn(cards, id, t) && Sound(card);
    var out := Compute(card, t.context, b.caps);
    ComputedDated(card, t.context, b.caps);
    MovedEntriesDated(card, DayOf(t), out.moves);
    MilestoneMovesDated(card, card.milestones, t.context);
    FeeMovesDated(card, card.fees, t);
    var ms, fs := MilestoneEntries(card, t.context, out.excluded), FeeEntries(card, t.context, out.excluded);
    hide Compute, MilestoneMoves, FeeMoves, DatedCap, DatedMilestone, DatedFee, Sound, AddCaps, AddMilestones, AddFees,
    ToRecord;
    assert AllDated(card, t, Entries(out.moves), Entries(ms), Entries(fs));
    ToRecordDated(card, t, Entries(out.moves), Entries(ms), Entries(fs));
    assert a.txns[id].record == ToRecord(card.id, Entries(out.moves), Entries(ms), Entries(fs));
    DatedByRecord(card, t.(record := a.txns[id].record), a.txns[id]);
    OneTxnGood(b, a, cards, id);
  }

  lemma DatedByRecord(card: Card, t: Txn, u: Txn)
    requires DatedRecord(card, t) && u.record == t.record && u.context == t.context
    ensures DatedRecord(card, u)
  {
    assert forall e :: DatedFee(card, u, e) <==> DatedFee(card, t, e);
  }

  lemma {:induction false} SubtractRowsDated(t: Table, cards: Cards, card: Id, es: seq<Entry>)
    requires RowsDated(t, cards)
    ensures RowsDated(Subtract(t, card, es), cards)
    decreases |es|
  {
    if es != [] {
      SubtractRowsDated(SubtractRow(t, Key(card, es[0].id, es[0].start), es[0].delta), cards, card, es[1..]);
    }
  }

  lemma {:induction false} SubtractForward(t: Table, card: Id, es: seq<Entry>)
    requires Forward(t)
    ensures Forward(Subtract(t, card, es))
    decreases |es|
  {
    if es != [] {
      SubtractForward(SubtractRow(t, Key(card, es[0].id, es[0].start), es[0].delta), card, es[1..]);
    }
  }

  lemma {:induction false} SubtractFeesNonNegative(t: Table, card: Id, es: seq<Entry>, threshold: Id -> int)
    requires NonNegative(t)
    ensures NonNegative(SubtractFees(t, card, es, threshold))
    decreases |es|
  {
    if es != [] {
      var k := Key(card, es[0].id, es[0].start);
      var after := SettleAt(SubtractRow(t, k, es[0].delta), k, threshold);
      forall j
        ensures Value(after, j) >= 0
      {
        assert Value(t, j) >= 0;
      }
      SubtractFeesNonNegative(after, card, es[1..], threshold);
    }
  }

  /** The rows that hold while transactions change. */
  ghost predicate GoodTables(b: Book, cards: Cards, threshold: Id -> int) {
    && RowsDated(b.caps, cards) && Forward(b.milestones)
    && Clean(b) && WaiversSettled(b.fees, threshold)
  }

  lemma UndoGood(b: Book, cards: Cards, record: Option<Record>, threshold: Id -> int)
    requires GoodTables(b, cards, threshold)
    ensures GoodTables(Undo(b, record, threshold), cards, threshold) && Undo(b, record, threshold).txns == b.txns
  {
    if record.Some? {
      var r := record.value;
      SubtractRowsDated(b.caps, cards, r.card, r.caps);
      SubtractNonNegative(b.caps, r.card, r.caps);
      SubtractForward(b.milestones, r.card, r.milestones);
      SubtractNonNegative(b.milestones, r.card, r.milestones);
      SubtractFeesNonNegative(b.fees, r.card, r.fees, threshold);
      SubtractFeesSettled(b.fees, r.card, r.fees, threshold);
    }
  }

  lemma {:induction false} AddCapsRowsDated(t: Table, cards: Cards, card: Id, day: int, moves: seq<Move>)
    requires GoodCards(cards) && RowsDated(t, cards) && MovesDated(cards(card), day, moves)
    ensures RowsDated(AddCaps(t, card, moves), cards)
    decreases |moves|
  {
    if moves != [] {
      var e := moves[0].entry;
      var k := Key(card, e.id, e.start);
      assert Sound(cards(card)) && TiledCap(cards(card), e.id) && DatedCap(cards(card), day, e);
      var w := cards(card).windows.cap(e.id, day);
      assert e.id !in cards(card).lifetime ==> cards(card).windows.cap(e.id, w.start) == w;
      var after := AddRow(t, k, e.end, e.delta, CapMarkOf(moves[0]));
      assert RowDated(cards, k, after[k]);
      assert MovesDated(cards(card), day, moves[1..]);
      hide MovesDated, TiledCap, DatedCap, RowDated;
      assert RowsDated(after, cards);
      AddCapsRowsDated(after, cards, card, day, moves[1..]);
    }
  }

  lemma {:induction false} AddMilestonesForward(t: Table, card: Id, moves: seq<Move>)
    requires Forward(t) && forall m :: m in moves ==> m.entry.start <= m.entry.end
    ensures Forward(AddMilestones(t, card, moves))
    decreases |moves|
  {
    if moves != [] {
      var e := moves[0].entry;
      AddMilestonesForward(AddRow(t, Key(card, e.id, e.start), e.end, e.delta, MilestoneMark(moves[0].approximate)),
                           card, moves[1..]);
    }
  }

  lemma {:induction false} MilestoneMovesForward(card: Card, rules: seq<Rule>, ctx: Context)
    requires TiledMilestones(card) && InSpan(IstDay(ctx.occurred)) && forall m :: m in rules ==> m in card.milestones
    ensures forall m :: m in MilestoneMoves(card, rules, ctx) ==> m.entry.start <= m.entry.end
  {
    if rules != [] {
      assert rules[0] in card.milestones && TiledMilestone(card, rules[0].id);
      MilestoneMovesForward(card, rules[1..], ctx);
    }
  }

  lemma RecordedTablesGood(b: Book, cards: Cards, id: Id, threshold: Id -> int)
    requires GoodCards(cards) && GoodTables(b, cards, threshold) && id in b.txns && InSpan(DayOf(b.txns[id]))
    ensures GoodTables(Recorded(b, cards(b.txns[id].card), id, threshold), cards, threshold)
  {
    var t, card := b.txns[id], cards(b.txns[id].card);
    assert card.id == t.card && Sound(card) && TiledMilestones(card);
    var out := Compute(card, t.context, b.caps);
    var ms, fs := MilestoneEntries(card, t.context, out.excluded), FeeEntries(card, t.context, out.excluded);
    ComputedDated(card, t.context, b.caps);
    MilestoneMovesForward(card, card.milestones, t.context);
    assert forall m :: m in ms ==> m.entry.start <= m.entry.end;
    hide Compute, MilestoneEntries, FeeEntries, TiledMilestones, Sound, MovesDated, GoodCards;
    AddCapsExact(b.caps, card.id, out.moves);
    AddMilestonesExact(b.milestones, card.id, ms);
    AddFeesExact(b.fees, card.id, fs, threshold);
    AddCapsRowsDated(b.caps, cards, card.id, DayOf(t), out.moves);
    AddMilestonesForward(b.milestones, card.id, ms);
    AddFeesSettled(b.fees, card.id, fs, threshold);
    hide AddCaps, AddMilestones, AddFees, RowsDated, Forward, WaiversSettled;
    AddedClean(b, Recorded(b, card, id, threshold), card.id, out.moves, ms, fs);
  }

  lemma AddedClean(b: Book, a: Book, card: Id, caps: seq<Move>, milestones: seq<Move>, fees: seq<Move>)
    requires Clean(b)
    requires forall k :: Value(a.caps, k) == Value(b.caps, k) + SumAt(card, Entries(caps), k)
    requires forall k :: Value(a.milestones, k) == Value(b.milestones, k) + SumAt(card, Entries(milestones), k)
    requires forall k :: Value(a.fees, k) == Value(b.fees, k) + SumAt(card, Entries(fees), k)
    ensures Clean(a)
  {
  }

  /** Recording, first or repeated, keeps all of it. */
  lemma RecordedGood(b: Book, cards: Cards, id: Id, threshold: Id -> int)
    requires GoodCards(cards) && Good(b, cards, threshold) && id in b.txns
    ensures Good(Recorded(b, cards(b.txns[id].card), id, threshold), cards, threshold)
  {
    assert GoodTxn(cards, id, b.txns[id]);
    assert GoodTables(b, cards, threshold);
    hide Recorded, GoodTxns, RowsDated, Clean, WaiversSettled, Forward;
    RecordedTxnGood(b, cards, id, threshold);
    RecordedTablesGood(b, cards, id, threshold);
  }

  lemma ClearedGood(b: Book, cards: Cards, id: Id, threshold: Id -> int)
    requires Good(b, cards, threshold) && id in b.txns
    ensures var c := Cleared(b, id, threshold); Good(c, cards, threshold) && c.txns == b.txns
  {
    hide Undo, GoodTxns, RowsDated, WaiversSettled, Forward, NonNegative;
    assert GoodTables(b, cards, threshold);
    UndoGood(b, cards, b.txns[id].record, threshold);
  }

  lemma UnrecordedGood(b: Book, a: Book, cards: Cards, id: Id)
    requires GoodTxns(b.txns, cards) && id in b.txns && id in a.txns && a.txns == b.txns[id := a.txns[id]]
    requires a.txns[id].record.None? && a.txns[id].id == b.txns[id].id && a.txns[id].context == b.txns[id].context
    ensures GoodTxns(a.txns, cards)
  {
    assert GoodTxn(cards, id, b.txns[id]);
    OneTxnGood(b, a, cards, id);
  }

  lemma DroppedGood(b: Book, cards: Cards, id: Id, threshold: Id -> int)
    requires Good(b, cards, threshold) && id in b.txns
    ensures Good(Reversed(b, id, threshold), cards, threshold) && Good(Detached(b, id), cards, threshold)
    ensures Good(DeferredApply(b, id), cards, threshold)
  {
    assert GoodTables(b, cards, threshold);
    UndoGood(b, cards, b.txns[id].record, threshold);
    hide Undo, GoodTxns, RowsDated, WaiversSettled, Forward, NonNegative;
    UnrecordedGood(b, Reversed(b, id, threshold), cards, id);
    UnrecordedGood(b, Detached(b, id), cards, id);
    UnrecordedGood(b, DeferredApply(b, id), cards, id);
  }

  // ---- rebuilds --------------------------------------------------------------------------------------

  ghost predicate MovedDated(card: Card, f: Replay, t: Txn) {
    t.id in f.moved ==> forall e :: e in f.moved[t.id] ==> DatedCap(card, DayOf(t), e)
  }

  lemma ReplayOneMoved(card: Card, caps: CapRange, r: Replay, t: Txn, excluded: set<Id>)
    requires OwnCaps(card) && t.id !in r.moved
    ensures MovedDated(card, ReplayOne(card, caps, r, t, excluded), t)
    ensures ReplayOne(card, caps, r, t, excluded).moved.Keys <= r.moved.Keys + {t.id}
  {
    ComputedDated(card, t.context, r.rows);
    MovedEntriesDated(card, DayOf(t), Compute(card, t.context, r.rows).moves);
    hide Compute, DatedCap, MoveRows, SeedRows;
  }

  lemma {:induction false} ReplayMoved(card: Card, caps: CapRange, r: Replay, ts: seq<Txn>, excluded: set<Id>)
    requires OwnCaps(card) && DistinctIds(ts) && forall t :: t in ts ==> t.id !in r.moved
    ensures forall t :: t in ts ==> MovedDated(card, ReplayAll(card, caps, r, ts, excluded), t)
    decreases |ts|
  {
    if ts != [] {
      var n := ReplayOne(card, caps, r, ts[0], excluded);
      TailIds(ts);
      ReplayOneMoved(card, caps, r, ts[0], excluded);
      forall t | t in ts[1..]
        ensures t.id !in n.moved
      {
        assert t.id in Ids(ts[1..]);
      }
      hide ReplayOne, OwnCaps, DatedCap;
      ReplayMoved(card, caps, n, ts[1..], excluded);
      MovedStable(card, caps, n, ts[1..], excluded, ts[0].id);
      forall t | t in ts && t != ts[0]
        ensures t in ts[1..]
      {
      }
    }
  }

  lemma NextRecordDated(card: Card, range: Range, f: Replay, slots: Table, t: Txn, excluded: set<Id>)
    requires DatedRecord(card, t) && MovedDated(card, f, t)
    ensures DatedRecord(card, t.(record := NextRecord(card, range, f, slots, t, excluded)))
  {
    StoredDated(card, t);
    MilestoneMovesDated(card, card.milestones, t.context);
    hide DatedCap, DatedMilestone, DatedFee, MilestoneMoves, SupersededCap, SupersededMilestone, ToRecord;
    var caps, milestones := NextCaps(card, range, f, t, excluded), NextMilestones(card, range, slots, t, excluded);
    assert forall e :: e in caps ==> DatedCap(card, DayOf(t), e);
    assert forall e :: e in NewMilestones(card, slots, t.context) ==> DatedMilestone(card, DayOf(t), e);
    ToRecordDated(card, t, caps, milestones, EntriesOf(t.record, Fees));
  }

  /** The transactions of a store whose records a rebuild may have changed. */
  lemma UpdatedTxnsGood(b: Book, a: Book, cards: Cards, card: Card, ts: seq<Txn>, records: map<Id, Option<Record>>)
    requires GoodTxns(b.txns, cards) && a.txns.Keys == b.txns.Keys && records.Keys <= Ids(ts)
    requires forall id :: id in a.txns ==>
               var t, u := b.txns[id], a.txns[id];
               u.id == t.id && u.card == t.card && u.context == t.context
               && u.record == if id in records then records[id] else t.record
    requires forall t :: t in ts ==> t.id in b.txns && b.txns[t.id] == t && cards(t.card) == card
    requires forall t :: t in ts && t.id in records ==> DatedRecord(card, t.(record := records[t.id]))
    ensures GoodTxns(a.txns, cards)
  {
    hide DatedRecord;
    forall id | id in a.txns
      ensures GoodTxn(cards, id, a.txns[id])
    {
      var t := b.txns[id];
      assert GoodTxn(cards, id, t);
      if id in records {
        assert t in ts;
        DatedByRecord(card, t.(record := records[id]), a.txns[id]);
      } else {
        DatedByRecord(cards(t.card), t, a.txns[id]);
      }
    }
  }

  lemma LoadedOfCard(b: Book, card: Card, range: Range, ts: seq<Txn>)
    requires Loads(b, card, range, ts)
    ensures forall t :: t in ts ==> t.id in b.txns && b.txns[t.id] == t && t.card == card.id
  {
  }

  lemma PlannedRecordsDated(b: Book, cards: Cards, c: Id, range: Range, expected: bool, ts: seq<Txn>, excluded: set<Id>,
                            t: Txn)
    requires GoodCards(cards) && GoodTxns(b.txns, cards) && Loads(b, cards(c), range, ts) && t in ts
    ensures var plan := FirstPlan(b, cards(c), range, expected, ts, excluded);
      plan.records.Keys <= Ids(ts)
      && (t.id in plan.records ==> DatedRecord(cards(c), t.(record := plan.records[t.id])))
  {
    var card := cards(c);
    assert card.id == c && Sound(card);
    LoadedOfCard(b, card, range, ts);
    assert GoodTxn(cards, t.id, t);
    hide FirstPlan, MilestoneReplay, NextRecord, DatedRecord, MovedDated, Canonical, GoodCards, GoodTxns, ReplayAll;
    LoadedDistinct(b, card, range, ts);
    if range.caps.Some? {
      ReplayMoved(card, range.caps.value, Replay(Slots(card, range), map[], map[]), ts, excluded);
    }
    assert MovedDated(card, ReplayOf(card, range, ts, excluded), t) by {
      NoneMoved(card, range, ts, excluded, t);
    }
    hide ReplayOf, MilestoneSlots, Loads;
    PlanAt(b, card, range, expected, ts, excluded);
    NextRecordDated(card, range, ReplayOf(card, range, ts, excluded), MilestoneSlots(map[], card, range.milestones), t,
                    excluded);
  }

  lemma NoneMoved(card: Card, range: Range, ts: seq<Txn>, excluded: set<Id>, t: Txn)
    ensures range.caps.None? ==> MovedDated(card, ReplayOf(card, range, ts, excluded), t)
  {
  }

  lemma RebuiltTxnsGood(b: Book, cards: Cards, c: Id, range: Range, expected: bool, ts: seq<Txn>, excluded: set<Id>)
    requires GoodCards(cards) && GoodTxns(b.txns, cards) && Loads(b, cards(c), range, ts)
    ensures GoodTxns(Rebuilt(b, cards(c), range, expected, ts, excluded).txns, cards)
  {
    var card, plan := cards(c), FirstPlan(b, cards(c), range, expected, ts, excluded);
    assert card.id == c;
    LoadedOfCard(b, card, range, ts);
    hide Rebuilt, FirstPlan, ReplayOf, MilestoneSlots, MilestoneReplay, Loads, DatedRecord, GoodCards, GoodTxns,
    Written, Changed,
      Emptied, Moved, Scope, ExistingCaps;
    PlanAt(b, card, range, expected, ts, excluded);
    RebuiltParts(b, card, range, expected, ts, excluded);
    forall t | t in ts && t.id in plan.records
      ensures DatedRecord(card, t.(record := plan.records[t.id]))
    {
      PlannedRecordsDated(b, cards, c, range, expected, ts, excluded, t);
    }
    UpdatedTxnsGood(b, Rebuilt(b, card, range, expected, ts, excluded), cards, card, ts, plan.records);
  }

  lemma WrittenRowsDated(table: Table, cards: Cards, rows: Table, changed: set<Key>, deletes: set<Key>)
    requires RowsDated(table, cards) && RowsDated(rows, cards)
    ensures RowsDated(Written(table, Positive(rows), changed, deletes), cards)
  {
    hide RowDated;
  }

  lemma WrittenForward(table: Table, rows: Table, changed: set<Key>, deletes: set<Key>)
    requires Forward(table) && Forward(rows)
    ensures Forward(Written(table, Positive(rows), changed, deletes))
  {
  }

  /** The rebuild of a card as the code makes it: over its own range, from the card's first day,
      over exactly the rows it selects. Its windows end by 31 December 9999. */
  ghost predicate Rebuilds(b: Book, card: Card, openedOn: Option<int>, req: Request, ts: seq<Txn>) {
    && InSpan(req.asOf) && req.floor.Some? && IsFloor(b.txns, card, openedOn, req.asOf, req.floor.value)
    && GoodRange(RangeOf(card, req)) && Loads(b, card, RangeOf(card, req), ts)
  }

  lemma SpansForward(card: Card, req: Request)
    requires TiledMilestones(card) && InSpan(req.asOf)
    ensures GoodSpans(card, RangeOf(card, req))
    ensures forall s :: s in RangeOf(card, req).milestones ==> s.window.start <= s.window.end
  {
    SpansGood(card, card.milestones, req.asOf);
    var spans := RangeOf(card, req).milestones;
    forall s | s in spans
      ensures GoodSpan(card, req.asOf, s) && s.window.start <= s.window.end
    {
      SameStart(card, s.id, req.asOf, req.asOf);
    }
  }

  lemma SpanRowsForward(card: Card, spans: seq<Span>, rows: Table)
    requires SpanRows(card, spans, rows) && forall s :: s in spans ==> s.window.start <= s.window.end
    ensures Forward(rows)
  {
  }

  lemma RebuiltRowsDated(card: Card, cards: Cards, caps: CapRange, rows: Table)
    requires card == cards(card.id) && DatedRows(card, caps, rows)
    ensures RowsDated(rows, cards)
  {
    forall k | k in rows
      ensures RowDated(cards, k, rows[k])
    {
      assert DatedRow(card, caps, k, rows[k]);
    }
  }

  lemma RebuiltTablesGood(b: Book, cards: Cards, c: Id, openedOn: Option<int>, req: Request, ts: seq<Txn>,
                          excluded: set<Id>, threshold: Id -> int)
    requires GoodCards(cards) && Good(b, cards, threshold) && Rebuilds(b, cards(c), openedOn, req, ts)
    ensures GoodTables(Rebuilt(b, cards(c), RangeOf(cards(c), req), req.expected, ts, excluded), cards, threshold)
  {
    var card, range := cards(c), RangeOf(cards(c), req);
    assert card.id == c && Sound(card) && TiledMilestones(card);
    GoodIsGoodBook(b, cards, threshold, c);
    SpansForward(card, req);
    FinalRowsDated(b, card, range, ts, excluded);
    FinalMilestoneRows(card, range, ts, excluded);
    NoCapRows(card, range, ts, excluded);
    RebuiltClean(b, card, range, req.expected, ts, excluded);
    RebuiltParts(b, card, range, req.expected, ts, excluded);
    var rows, slots := ReplayOf(card, range, ts, excluded).rows, MilestoneSlots(map[], card, range.milestones);
    var counted := MilestoneReplay(card, slots, slots, ts, excluded);
    if range.caps.Some? {
      RebuiltRowsDated(card, cards, range.caps.value, rows);
    }
    SpanRowsForward(card, range.milestones, counted);
    RebuiltFees(b, card, range, req.expected, ts, excluded);
    hide Rebuilt, RangeOf, ReplayOf, MilestoneReplay, MilestoneSlots, RowsDated, Forward, Clean,
    WaiversSettled, Written, Changed, Emptied, Moved,
      GoodTxns, GoodCards, Rebuilds, ExistingCaps, Scope, FirstPlan, SpanRows, DatedRows, GoodSpans;
    var a := Rebuilt(b, card, range, req.expected, ts, excluded);
    var existing, scope := ExistingCaps(b, card, range), Scope(b, card, range);
    assert RowsDated(rows, cards) by {
      if range.caps.None? {
        NoRowsDated(cards);
      }
    }
    WrittenRowsDated(b.caps, cards, rows, Changed(rows, existing), Moved(card, range, rows, existing) + Emptied(rows,
        existing));
    var gone := (set k | k in scope && k !in counted) + Emptied(counted, scope);
    WrittenForward(b.milestones, counted, Changed(counted, scope), gone);
  }

  lemma NoRowsDated(cards: Cards)
    ensures RowsDated(map[], cards)
  {
  }

  lemma RebuiltFees(b: Book, card: Card, range: Range, expected: bool, ts: seq<Txn>, excluded: set<Id>)
    ensures Rebuilt(b, card, range, expected, ts, excluded).fees == b.fees
    ensures Rebuilt(b, card, range, expected, ts, excluded).txns.Keys == b.txns.Keys
  {
  }

  /** A rebuild keeps all of it. */
  lemma RebuiltGood(b: Book, cards: Cards, c: Id, openedOn: Option<int>, req: Request, ts: seq<Txn>, excluded: set<Id>,
                    threshold: Id -> int)
    requires GoodCards(cards) && Good(b, cards, threshold) && Rebuilds(b, cards(c), openedOn, req, ts)
    ensures Good(Rebuilt(b, cards(c), RangeOf(cards(c), req), req.expected, ts, excluded), cards, threshold)
  {
    RebuiltTablesGood(b, cards, c, openedOn, req, ts, excluded, threshold);
    RebuiltTxnsGood(b, cards, c, RangeOf(cards(c), req), req.expected, ts, excluded);
  }

  // ---- fee-waiver rebuilds ---------------------------------------------------------------------------

  ghost predicate FeeRebuilds(b: Book, card: Card, day: int, ts: seq<Txn>) {
    card.fees != [] && FeeLoads(b, card, FeeWindowsOf(card, card.fees, day), ts)
  }

  predicate NoNegatives(totals: map<Key, int>) {
    forall k :: k in totals ==> totals[k] >= 0
  }

  lemma {:induction false} AddTotalsNonNegative(card: Card, totals: map<Key, int>, es: seq<Entry>)
    requires NoNegatives(totals)
    ensures NoNegatives(AddTotals(card, totals, es))
    decreases |es|
  {
    if es != [] {
      var k := KeyOf(card, es[0]);
      AddTotalsNonNegative(card, if k in totals then totals[k := totals[k] + es[0].delta] else totals, es[1..]);
    }
  }

  lemma {:induction false} TotalsNonNegative(card: Card, ws: seq<FeeWindow>, totals: map<Key, int>, ts: seq<Txn>)
    requires NoNegatives(totals)
    ensures NoNegatives(Totals(card, ws, totals, ts))
    decreases |ts|
  {
    if ts != [] {
      AddTotalsNonNegative(card, totals, NewFees(card, ws, ts[0]));
      TotalsNonNegative(card, ws, AddTotals(card, totals, NewFees(card, ws, ts[0])), ts[1..]);
    }
  }

  lemma {:induction false} FeeRowsGood(card: Card, table: Table, ws: seq<FeeWindow>, totals: map<Key, int>,
                                       threshold: Id -> int)
    requires NoNegatives(totals) && NonNegative(table) && WaiversSettled(table, threshold)
    ensures var after := FeeRows(card, table, ws, totals, threshold); NonNegative(after) && WaiversSettled(after,
        threshold)
    decreases |ws|
  {
    if ws != [] {
      var k := FeeKey(card, ws[0]);
      var after := FeeRow(table, k, ws[0], if k in totals then totals[k] else 0, threshold);
      forall j
        ensures Value(after, j) >= 0
      {
        assert Value(table, j) >= 0;
      }
      FeeRowsGood(card, after, ws[1..], totals, threshold);
    }
  }

  lemma NextFeeRecordDated(card: Card, ws: seq<FeeWindow>, t: Txn)
    requires DatedRecord(card, t)
    ensures DatedRecord(card, t.(record := NextFeeRecord(card, ws, t)))
  {
    StoredDated(card, t);
    FeeEntriesDated(card, ws, t);
    hide DatedCap, DatedMilestone, DatedFee, FeeEntriesIn, ToRecord, ZeroTotals;
    ToRecordDated(card, t, EntriesOf(t.record, Caps), EntriesOf(t.record, Milestones), NextFees(card, ws, t));
  }

  /** A fee-waiver rebuild keeps all of it. */
  lemma FeesRebuiltGood(b: Book, cards: Cards, c: Id, day: int, ts: seq<Txn>, threshold: Id -> int)
    requires GoodCards(cards) && Good(b, cards, threshold) && FeeRebuilds(b, cards(c), day, ts)
    ensures Good(FeesRebuilt(b, cards(c), day, ts, threshold), cards, threshold)
  {
    var card, ws := cards(c), FeeWindowsOf(cards(c), cards(c).fees, day);
    var a, records := FeesRebuilt(b, card, day, ts, threshold), FeeRecords(card, ws, ts);
    assert card.id == c;
    TotalsNonNegative(card, ws, ZeroTotals(card, ws), ts);
    FeeRowsGood(card, b.fees, ws, Totals(card, ws, ZeroTotals(card, ws), ts), threshold);
    FeeRecordsAt(card, ws, ts);
    hide DatedRecord, NextFeeRecord, Canonical, FeeRows, Totals, FeeSelected, WaiversSettled, NonNegative, GoodCards;
    forall t | t in ts && t.id in records
      ensures DatedRecord(card, t.(record := records[t.id]))
    {
      assert GoodTxn(cards, t.id, t);
      FeeTxnOfCard(b, card, ws, ts, t);
      NextFeeRecordDated(card, ws, t);
    }
    forall t | t in ts
      ensures t.card == c
    {
      FeeTxnOfCard(b, card, ws, ts, t);
    }
    UpdatedTxnsGood(b, a, cards, card, ts, records);
  }

  lemma FeeTxnOfCard(b: Book, card: Card, ws: seq<FeeWindow>, ts: seq<Txn>, t: Txn)
    requires ws != [] && FeeLoads(b, card, ws, ts) && t in ts
    ensures t.card == card.id
  {
  }

  // ---- runs ------------------------------------------------------------------------------------------

  /** What can happen to the store. `ts` is what a rebuild loads; an apply that meets a row of the v1
      path makes its own rebuild, with `floor` and `ts`. `V1Row` is a row the v1 path writes. */
  datatype Action =
    | Apply(id: Id, openedOn: Option<int>, floor: int, ts: seq<Txn>)
    | Reverse(id: Id)
    | FailedApply(id: Id)
    | FailedReverse(id: Id)
    | Write(txn: Txn)
    | V1Row(section: Section, key: Key, row: Row)
    | Rebuild(card: Id, openedOn: Option<int>, req: Request, ts: seq<Txn>)
    | FeeRebuild(card: Id, day: int, ts: seq<Txn>)

  /** A row as the v1 path writes it: a cap row that shares its start with one of the cap's windows ends
      no earlier, a milestone row is not empty of days, and a fee row is waived at the threshold. */
  ghost predicate V1Written(cards: Cards, section: Section, k: Key, row: Row, threshold: Id -> int) {
    match section
    case Caps => RowDated(cards, k, row)
    case Milestones => k.start <= row.end
    case Fees => row.mark.FeeMark? && (row.mark.waived <==> row.value >= threshold(k.rule))
  }

  /** When the action can happen so. A caller that changes a transaction's card or time has reversed
      it first, and dates are from 1970 to 9999. */
  ghost predicate Possible(b: Book, a: Action, cards: Cards, threshold: Id -> int) {
    match a
    case Apply(id, openedOn, floor, ts) =>
      id in b.txns &&
      var card, c := cards(b.txns[id].card), Cleared(b, id, threshold);
      Stale(card, c.caps, b.txns[id].context) ==> Rebuilds(c, card, openedOn, Around(b.txns[id], floor), ts)
    case Reverse(id) => id in b.txns
    case FailedApply(id) => id in b.txns
    case FailedReverse(id) => id in b.txns
    case Write(t) =>
      && InSpan(DayOf(t)) && InSpan(SpendDay(t))
      && (t.id in b.txns && b.txns[t.id].record.Some? ==>
            t.card == b.txns[t.id].card && t.context.occurred == b.txns[t.id].context.occurred)
    case V1Row(section, k, row) => row.value >= 0 && V1Written(cards, section, k, row, threshold)
    case Rebuild(c, openedOn, req, ts) => Rebuilds(b, cards(c), openedOn, req, ts)
    case FeeRebuild(c, day, ts) => FeeRebuilds(b, cards(c), day, ts)
  }

  function WithRow(b: Book, section: Section, k: Key, row: Row): Book {
    match section
    case Caps => b.(caps := b.caps[k := row])
    case Milestones => b.(milestones := b.milestones[k := row])
    case Fees => b.(fees := b.fees[k := row])
  }

  ghost function After(b: Book, a: Action, cards: Cards, threshold: Id -> int): Book
    requires Possible(b, a, cards, threshold)
  {
    match a
    case Apply(id, openedOn, floor, ts) =>
      var card, c := cards(b.txns[id].card), Cleared(b, id, threshold);
      if !Stale(card, c.caps, b.txns[id].context) then Recorded(c, card, id, threshold)
      else Recorded(Rebuilt(c, card, RangeOf(card, Around(b.txns[id], floor)), false, ts, {id}), card, id, threshold)
    case Reverse(id) => Reversed(b, id, threshold)
    case FailedApply(id) => DeferredApply(b, id)
    case FailedReverse(id) => Detached(b, id)
    case Write(t) => b.(txns := b.txns[t.id := t.(record := if t.id in b.txns then b.txns[t.id].record else None)])
    case V1Row(section, k, row) => WithRow(b, section, k, row)
    case Rebuild(c, openedOn, req, ts) => Rebuilt(b, cards(c), RangeOf(cards(c), req), req.expected, ts, {})
    case FeeRebuild(c, day, ts) => FeesRebuilt(b, cards(c), day, ts, threshold)
  }

  /** The store after the actions, of which the impossible ones do not happen. */
  ghost function RunAll(b: Book, actions: seq<Action>, cards: Cards, threshold: Id -> int): Book
    decreases |actions|
  {
    if actions == [] then b
    else RunAll(if Possible(b, actions[0], cards, threshold) then After(b, actions[0], cards, threshold)
                else b, actions[1..], cards, threshold)
  }

  lemma WriteGood(b: Book, cards: Cards, t: Txn, threshold: Id -> int)
    requires Good(b, cards, threshold) && Possible(b, Action.Write(t), cards, threshold)
    ensures Good(After(b, Action.Write(t), cards, threshold), cards, threshold)
  {
    var a := After(b, Action.Write(t), cards, threshold);
    if t.id in b.txns {
      assert GoodTxn(cards, t.id, b.txns[t.id]);
      if b.txns[t.id].record.Some? {
        hide DatedCap, DatedMilestone;
        assert forall e :: DatedFee(cards(t.card), a.txns[t.id], e) <==> DatedFee(cards(t.card), b.txns[t.id], e);
        assert DatedRecord(cards(t.card), a.txns[t.id]);
      }
    }
    OneTxnGood(b, a, cards, t.id);
  }

  lemma RowNonNegative(t: Table, k: Key, row: Row)
    requires NonNegative(t) && row.value >= 0
    ensures NonNegative(t[k := row])
  {
    var u := t[k := row];
    forall j: Key
      ensures Value(u, j) >= 0
    {
      assert Value(t, j) >= 0;
    }
  }

  lemma V1RowGood(b: Book, cards: Cards, section: Section, k: Key, row: Row, threshold: Id -> int)
    requires Good(b, cards, threshold) && row.value >= 0 && V1Written(cards, section, k, row, threshold)
    ensures Good(WithRow(b, section, k, row), cards, threshold)
  {
    RowNonNegative(TableOf(b, section), k, row);
    hide NonNegative, RowDated, GoodTxns;
  }

  lemma ApplyGood(b: Book, cards: Cards, a: Action, threshold: Id -> int)
    requires a.Apply? && GoodCards(cards) && Good(b, cards, threshold) && Possible(b, a, cards, threshold)
    ensures Good(After(b, a, cards, threshold), cards, threshold)
  {
    var t, c := b.txns[a.id], Cleared(b, a.id, threshold);
    var card, range := cards(t.card), RangeOf(cards(t.card), Around(t, a.floor));
    hide Good, Recorded, Stale, GoodCards, Rebuilds, Cleared, Rebuilt;
    ClearedGood(b, cards, a.id, threshold);
    if !Stale(card, c.caps, t.context) {
      RecordedGood(c, cards, a.id, threshold);
    } else {
      RebuiltGood(c, cards, t.card, a.openedOn, Around(t, a.floor), a.ts, {a.id}, threshold);
      RebuiltKeepsCard(c, card, range, a.ts, a.id);
      RecordedGood(Rebuilt(c, card, range, false, a.ts, {a.id}), cards, a.id, threshold);
    }
  }

  lemma RebuiltKeepsCard(b: Book, card: Card, range: Range, ts: seq<Txn>, id: Id)
    requires id in b.txns
    ensures var a := Rebuilt(b, card, range, false, ts, {id}); id in a.txns && a.txns[id].card == b.txns[id].card
  {
  }

  /** One action of any kind keeps every store good. */
  lemma AfterGood(b: Book, cards: Cards, a: Action, threshold: Id -> int)
    requires GoodCards(cards) && Good(b, cards, threshold) && Possible(b, a, cards, threshold)
    ensures Good(After(b, a, cards, threshold), cards, threshold)
  {
    hide Good, GoodCards, Rebuilds, FeeRebuilds, Rebuilt, FeesRebuilt, Recorded, Cleared, Reversed, DeferredApply,
    Detached, Stale, V1Written, RangeOf;
    match a {
      case Apply(_, _, _, _) => ApplyGood(b, cards, a, threshold);
      case Reverse(id) => DroppedGood(b, cards, id, threshold);
      case FailedApply(id) => DroppedGood(b, cards, id, threshold);
      case FailedReverse(id) => DroppedGood(b, cards, id, threshold);
      case Write(t) => WriteGood(b, cards, t, threshold);
      case V1Row(section, k, row) => V1RowGood(b, cards, section, k, row, threshold);
      case Rebuild(c, openedOn, req, ts) => RebuiltGood(b, cards, c, openedOn, req, ts, {}, threshold);
      case FeeRebuild(c, day, ts) => FeesRebuiltGood(b, cards, c, day, ts, threshold);
    }
  }

  /** Over every run, rebuilds interleaved, the store stays one that the rebuild theorems are about. */
  lemma {:induction false} RunGood(b: Book, cards: Cards, actions: seq<Action>, threshold: Id -> int)
    requires GoodCards(cards) && Good(b, cards, threshold)
    ensures Good(RunAll(b, actions, cards, threshold), cards, threshold)
    decreases |actions|
  {
    if actions != [] {
      hide Good, GoodCards, Possible, After;
      if Possible(b, actions[0], cards, threshold) {
        AfterGood(b, cards, actions[0], threshold);
        RunGood(After(b, actions[0], cards, threshold), cards, actions[1..], threshold);
      } else {
        RunGood(b, cards, actions[1..], threshold);
      }
    }
  }

  function EmptyBook(): Book { Book(map[], map[], map[], map[], map[]) }

  lemma EmptyGood(cards: Cards, threshold: Id -> int)
    ensures Good(EmptyBook(), cards, threshold)
  {
  }

  // ---- what a rebuild does in any run ------------------------------------------------------------------

  lemma FloorLoadsAll(b: Book, cards: Cards, c: Id, openedOn: Option<int>, req: Request, ts: seq<Txn>,
                      threshold: Id -> int)
    requires GoodCards(cards) && Good(b, cards, threshold) && Rebuilds(b, cards(c), openedOn, req, ts)
    ensures var card, range := cards(c), RangeOf(cards(c), req);
      && (range.caps.Some? ==> Rebuilding(b, card, range, ts) && StoredRowsDated(card, b.caps))
      && TiledMilestones(card) && GoodBook(b, card) && GoodSpans(card, range) && GoodMilestones(b, card, range)
      && Rebuildable(b, card, range, ts)
  {
    var card, range := cards(c), RangeOf(cards(c), req);
    assert card.id == c && Sound(card) && TiledMilestones(card);
    GoodIsGoodBook(b, cards, threshold, c);
    assert Forward(b.milestones);
    hide RangeOf, Good, Sound, GoodCards, Loads, GoodBook, StoredRowsDated, TiledMilestones, GoodFees, GoodRange,
    GoodSpans;
    SpansForward(card, req);
    assert forall id :: id in b.txns && b.txns[id].card == card.id ==> req.floor.value <= DayOf(b.txns[id]);
    RangeLoadsAll(b, card, req);
    assert Tiled(card) by {
      SoundTiled(card);
    }
    RangeGoodSpans(b, card, req);
  }

  lemma SoundTiled(card: Card)
    requires Sound(card)
    ensures Tiled(card)
  {
  }

  lemma CapRowsAgree(b: Book, card: Card, range: Range, expected: bool, ts: seq<Txn>)
    requires Rebuilding(b, card, range, ts) && StoredRowsDated(card, b.caps)
    ensures var a := Rebuilt(b, card, range, expected, ts, {});
      forall k :: k in RowsOf(card, range, ts, {}) ==> Value(a.caps, k) == Total(a.txns, Caps, k)
  {
    hide Rebuilding, StoredRowsDated, Rebuilt, RowsOf, Total;
    var a := Rebuilt(b, card, range, expected, ts, {});
    assert Kept(a, {}) == a.txns;
    forall k | k in RowsOf(card, range, ts, {})
      ensures Value(a.caps, k) == Total(a.txns, Caps, k)
    {
      CapAgreement(b, card, range, expected, ts, {}, k);
    }
  }

  lemma MilestoneRowsAgree(b: Book, card: Card, range: Range, expected: bool, ts: seq<Txn>)
    requires TiledMilestones(card) && GoodBook(b, card) && GoodSpans(card, range) && GoodMilestones(b, card, range)
    requires Loads(b, card, range, ts)
    ensures var a := Rebuilt(b, card, range, expected, ts, {});
      forall k :: k in MilestoneSlots(map[], card, range.milestones) ==>
          Value(a.milestones, k) == Total(a.txns, Milestones, k)
  {
    hide TiledMilestones, GoodBook, GoodSpans, GoodMilestones, Loads, Rebuilt, MilestoneSlots, Total;
    var a := Rebuilt(b, card, range, expected, ts, {});
    assert Kept(a, {}) == a.txns;
    forall k | k in MilestoneSlots(map[], card, range.milestones)
      ensures Value(a.milestones, k) == Total(a.txns, Milestones, k)
    {
      MilestoneAgreement(b, card, range, expected, ts, {}, k);
    }
  }

  lemma AgainNothing(b: Book, card: Card, range: Range, expected: bool, ts: seq<Txn>)
    requires Rebuildable(b, card, range, ts)
    ensures var a := Rebuilt(b, card, range, expected, ts, {});
      forall again :: Loads(a, card, range, again) ==> Rebuilt(a, card, range, expected, again, {}) == a
  {
    hide Rebuildable, Loads, Rebuilt;
    var a := Rebuilt(b, card, range, expected, ts, {});
    forall again | Loads(a, card, range, again)
      ensures Rebuilt(a, card, range, expected, again, {}) == a
    {
      RebuildTwice(b, card, range, expected, ts, {}, again);
    }
  }

  lemma RebuildableLoads(b: Book, card: Card, range: Range, ts: seq<Txn>)
    requires Rebuildable(b, card, range, ts)
    ensures Loads(b, card, range, ts)
  {
  }

  /** Whatever happened before, a rebuild of any card leaves every cap row and milestone row it
      rebuilt equal to the sum of the matching entries over all records, and made again it writes
      nothing. */
  lemma RebuildInAnyRun(cards: Cards, actions: seq<Action>, threshold: Id -> int, c: Id, openedOn: Option<int>,
                        req: Request, ts: seq<Txn>)
    requires GoodCards(cards) && Rebuilds(RunAll(EmptyBook(), actions, cards, threshold), cards(c), openedOn, req, ts)
    ensures var b, card, range := RunAll(EmptyBook(), actions, cards, threshold), cards(c), RangeOf(cards(c), req);
      var a := Rebuilt(b, card, range, req.expected, ts, {});
      && (range.caps.Some? ==> forall k :: k in RowsOf(card, range, ts, {}) ==>
          Value(a.caps, k) == Total(a.txns, Caps, k))
      && (forall k :: k in MilestoneSlots(map[], card, range.milestones) ==>
          Value(a.milestones, k) == Total(a.txns, Milestones, k))
      && (forall again :: Loads(a, card, range, again) ==> Rebuilt(a, card, range, req.expected, again, {}) == a)
  {
    EmptyGood(cards, threshold);
    RunGood(EmptyBook(), cards, actions, threshold);
    var b, card, range := RunAll(EmptyBook(), actions, cards, threshold), cards(c), RangeOf(cards(c), req);
    hide RunAll, Good, GoodCards, Rebuilds, RangeOf, Rebuilding, StoredRowsDated, GoodBook, GoodSpans, GoodMilestones,
    Rebuildable,
      TiledMilestones, Rebuilt, RowsOf, MilestoneSlots, Loads, Total, Value;
    FloorLoadsAll(b, cards, c, openedOn, req, ts, threshold);
    if range.caps.Some? {
      CapRowsAgree(b, card, range, req.expected, ts);
    }
    RebuildableLoads(b, card, range, ts);
    MilestoneRowsAgree(b, card, range, req.expected, ts);
    AgainNothing(b, card, range, req.expected, ts);
  }

  /** And a fee-waiver rebuild leaves each rule's current row the sum of the matching entries over all
      records, waived exactly at the threshold. */
  lemma FeeRebuildInAnyRun(cards: Cards, actions: seq<Action>, threshold: Id -> int, c: Id, day: int, ts: seq<Txn>,
                           i: nat)
    requires GoodCards(cards) && NearWindows(cards(c)) && DistinctRules(cards(c).fees) && i < |cards(c).fees|
    requires FeeRebuilds(RunAll(EmptyBook(), actions, cards, threshold), cards(c), day, ts)
    ensures var a := FeesRebuilt(RunAll(EmptyBook(), actions, cards, threshold), cards(c), day, ts, threshold);
      var k := FeeKey(cards(c), FeeWindowsOf(cards(c), cards(c).fees, day)[i]);
      && Value(a.fees, k) == Total(a.txns, Fees, k)
      && (k in a.fees ==> a.fees[k].mark == FeeMark(Total(a.txns, Fees, k) >= threshold(k.rule)))
  {
    EmptyGood(cards, threshold);
    RunGood(EmptyBook(), cards, actions, threshold);
    var b := RunAll(EmptyBook(), actions, cards, threshold);
    hide RunAll, Good, GoodCards, NearWindows, FeesRebuilt, Total;
    GoodIsGoodBook(b, cards, threshold, c);
    hide GoodFees, GoodBook;
    FeeAgreement(b, cards(c), day, ts, threshold, i);
  }
}
