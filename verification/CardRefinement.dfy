/** Live recording refines the replay: applying eligible spends one by one, in order of time and id,
    moves counters, entries and figures as the replay does; and the replay does not depend on the
    order its input is given in. */
module CardRefinement {
  import opened Basics
  import opened Cycles
  import opened CardRecords
  import opened CardModel
  import opened CardLive
  import opened CardReplay
  import opened CardRange
  import opened CardAgreement
  import opened CardIdempotent

  // ---- one live apply ---------------------------------------------------------------------------

  function Applies(card: Card, ts: seq<Txn>): (ops: seq<Op>)
    ensures |ops| == |ts|
  {
    if ts == [] then [] else [Apply(card, ts[0].id)] + Applies(card, ts[1..])
  }

  ghost predicate Clean(b: Book) {
    NonNegative(b.caps) && NonNegative(b.milestones) && NonNegative(b.fees)
  }

  /** The stored transaction `t` counts and has never been recorded. */
  predicate Fresh(b: Book, t: Txn) {
    t.id in b.txns && b.txns[t.id] == t && t.record.None? && Eligible(t)
  }

  lemma AppliedParts(b: Book, card: Card, t: Txn, threshold: Id -> int)
    requires Clean(b) && Fresh(b, t)
    ensures var a, out := Applied(b, card, t.id, threshold), Compute(card, t.context, b.caps);
      var ms := MilestoneEntries(card, t.context, out.excluded);
      && Clean(a)
      && t.id in a.txns && a.txns == b.txns[t.id := a.txns[t.id]]
      && a.caps == AddCaps(b.caps, card.id, out.moves)
      && EntriesOf(a.txns[t.id].record, Caps) == SortEntries(Entries(out.moves))
      && EntriesOf(a.txns[t.id].record, Milestones) == SortEntries(Entries(ms))
      && a.txns[t.id].expected == Expected(Some(out.native), Some(out.value), out.cashback)
      && (forall k :: Value(a.caps, k) == Value(b.caps, k) + SumAt(card.id, Entries(out.moves), k))
      && (forall k :: Value(a.milestones, k) == Value(b.milestones, k) + SumAt(card.id, Entries(ms), k))
  {
    var a, out := Applied(b, card, t.id, threshold), Compute(card, t.context, b.caps);
    hide Compute, MilestoneEntries, FeeEntries, AddCaps, AddMilestones, AddFees;
    AddCapsExact(b.caps, card.id, out.moves);
    AddMilestonesExact(b.milestones, card.id, MilestoneEntries(card, t.context, out.excluded));
    AddFeesExact(b.fees, card.id, FeeEntries(card, t.context, out.excluded), threshold);
    assert SortEntries([]) == [];
  }

  lemma {:induction false} LiveOthers(b: Book, card: Card, ts: seq<Txn>, threshold: Id -> int, id: Id)
    requires id in b.txns && id !in Ids(ts)
    ensures var live := Run(b, Applies(card, ts), threshold); id in live.txns && live.txns[id] == b.txns[id]
    decreases |ts|
  {
    if ts != [] {
      hide Applied;
      var op := Apply(card, ts[0].id);
      assert Applies(card, ts)[1..] == Applies(card, ts[1..]);
      assert ts[0].id in Ids(ts) && Ids(ts[1..]) <= Ids(ts);
      if ts[0].id in b.txns {
        AppliedOthers(b, card, ts[0].id, threshold, id);
      }
      LiveOthers(Step(b, op, threshold), card, ts[1..], threshold, id);
    }
  }

  lemma AppliedOthers(b: Book, card: Card, id: Id, threshold: Id -> int, other: Id)
    requires id in b.txns && other in b.txns && other != id
    ensures var a := Applied(b, card, id, threshold); other in a.txns && a.txns[other] == b.txns[other]
  {
  }

  lemma StillFresh(b: Book, a: Book, ts: seq<Txn>)
    requires ts != [] && DistinctIds(ts) && forall t :: t in ts ==> Fresh(b, t)
    requires ts[0].id in a.txns && a.txns == b.txns[ts[0].id := a.txns[ts[0].id]]
    ensures forall t :: t in ts[1..] ==> Fresh(a, t)
  {
    TailIds(ts);
    forall t | t in ts[1..]
      ensures Fresh(a, t)
    {
      assert t.id in Ids(ts[1..]);
      assert t in ts;
    }
  }

  // ---- the same counters ------------------------------------------------------------------------

  ghost predicate SameCounters(card: Card, live: Table, rows: Table) {
    forall k: Key :: k.card == card.id ==> Value(live, k) == Value(rows, k)
  }

  /** Pricing looks only at the values of the card's own rows. */
  lemma ComputeByOwnValue(card: Card, ctx: Context, a: Table, b: Table)
    requires SameCounters(card, a, b)
    ensures Compute(card, ctx, a) == Compute(card, ctx, b)
  {
    var caps, day := card.engine.plan(ctx).caps, IstDay(ctx.occurred);
    assert ConsumedBefore(card, a, caps, day) == ConsumedBefore(card, b, caps, day);
  }

  lemma {:induction false} MoveRowsValue(card: Card, rows: Table, moves: seq<Move>)
    ensures forall k: Key :: Value(MoveRows(card, rows, moves), k) == Value(rows, k) + SumAt(card.id, Entries(moves), k)
    decreases |moves|
  {
    if moves != [] {
      var e, k := moves[0].entry, KeyOf(card, moves[0].entry);
      var row := if k in rows then AddToRow(card, rows[k], e, Some(moves[0].amount))
                 else Row(e.end, e.delta, CapMark(e.kind, Some(moves[0].amount), moves[0].approximate));
      MoveRowsValue(card, rows[k := row], moves[1..]);
      assert Entries(moves) == [e] + Entries(moves[1..]);
      assert Entries(moves)[1..] == Entries(moves[1..]);
    }
  }

  /** What the replay holds for `t` is what live recording stored on it. */
  ghost predicate SameOutcome(live: Book, f: Replay, t: Txn) {
    && t.id in live.txns && t.id in f.moved && t.id in f.figures
    && EntriesOf(live.txns[t.id].record, Caps) == SortEntries(f.moved[t.id])
    && live.txns[t.id].expected == f.figures[t.id]
  }

  /** From counters of equal value, live recording and the replay keep equal counters and give
      every spend the same cap entries and the same expected figures. */
  lemma {:induction false} LiveRefinesReplay(b: Book, card: Card, caps: CapRange, r: Replay, ts: seq<Txn>,
                                             threshold: Id -> int)
    requires Clean(b) && SameCounters(card, b.caps, r.rows) && DistinctIds(ts)
    requires forall t :: t in ts ==> Fresh(b, t) && Within(caps, t)
    ensures var live, f := Run(b, Applies(card, ts), threshold), ReplayAll(card, caps, r, ts, {});
      SameCounters(card, live.caps, f.rows) && forall t :: t in ts ==> SameOutcome(live, f, t)
    decreases |ts|
  {
    if ts != [] {
      hide Applied, Compute, AddCaps;
      assert ts[0] in ts && Fresh(b, ts[0]);
      var t, a, n := ts[0], Applied(b, card, ts[0].id, threshold), ReplayOne(card, caps, r, ts[0], {});
      assert Applies(card, ts)[1..] == Applies(card, ts[1..]);
      TailIds(ts);
      AppliedParts(b, card, t, threshold);
      StillFresh(b, a, ts);
      ComputeByOwnValue(card, t.context, b.caps, r.rows);
      MoveRowsValue(card, r.rows, Compute(card, t.context, r.rows).moves);
      LiveRefinesReplay(a, card, caps, n, ts[1..], threshold);
      MovedStable(card, caps, n, ts[1..], {}, t.id);
      LiveOthers(a, card, ts[1..], threshold, t.id);
      var live, f := Run(b, Applies(card, ts), threshold), ReplayAll(card, caps, r, ts, {});
      assert live == Run(a, Applies(card, ts[1..]), threshold);
      forall u | u in ts
        ensures SameOutcome(live, f, u)
      {
        if u != t {
          assert u in ts[1..];
        }
      }
    }
  }

  // ---- milestones -------------------------------------------------------------------------------

  /** The engine prices as excluded only what its plan excludes. */
  ghost predicate OneExclusion(card: Card) {
    forall ctx, before :: card.engine.price(ctx, before).excluded ==> card.engine.plan(ctx).excluded
  }

  predicate SameMilestones(live: Table, rows: Table) {
    forall k :: k in rows ==> Value(live, k) == rows[k].value
  }

  lemma KeepInSlotsSum(card: Card, slots: Table, es: seq<Entry>, k: Key)
    requires k in slots && k.card == card.id
    ensures EntrySum(Keep(es, e => KeyOf(card, e) in slots), k.rule, k.start) == EntrySum(es, k.rule, k.start)
  {
    EntrySumKeep(es, e => KeyOf(card, e) in slots, k.rule, k.start);
  }

  lemma {:induction false} AddedValue(card: Card, rows: Table, es: seq<Entry>)
    ensures AddMilestoneEntries(card, rows, es).Keys == rows.Keys
    ensures forall k: Key :: k in rows ==>
            AddMilestoneEntries(card, rows, es)[k].value == rows[k].value + SumAt(card.id, es, k)
    decreases |es|
  {
    if es != [] {
      var k := KeyOf(card, es[0]);
      AddedValue(card, if k in rows then rows[k := rows[k].(value := rows[k].value + es[0].delta)] else rows, es[1..]);
    }
  }

  /** One live apply moves the rebuilt windows' rows by the entries the replay gives the spend. */
  lemma MilestoneStep(b: Book, card: Card, slots: Table, rows: Table, t: Txn, threshold: Id -> int)
    requires OneExclusion(card) && Clean(b) && SameMilestones(b.milestones, rows) && rows.Keys == slots.Keys
    requires (forall k: Key :: k in slots ==> k.card == card.id) && Fresh(b, t)
    ensures var a, es := Applied(b, card, t.id, threshold), NewMilestones(card, slots, t.context);
      && t.id in a.txns && SameMilestones(a.milestones, AddMilestoneEntries(card, rows, es))
      && AddMilestoneEntries(card, rows, es).Keys == rows.Keys
      && Keep(EntriesOf(a.txns[t.id].record, Milestones), e => KeyOf(card, e) in slots) == SortEntries(es)
  {
    hide Applied, Compute, AddCaps, MilestoneEntries, SortEntries;
    var a, out := Applied(b, card, t.id, threshold), Compute(card, t.context, b.caps);
    var all, es := Entries(MilestoneEntries(card, t.context, out.excluded)), NewMilestones(card, slots, t.context);
    AppliedParts(b, card, t, threshold);
    ExcludedAsPlanned(card, t.context, b.caps);
    assert es == Keep(all, e => KeyOf(card, e) in slots);
    KeepSort(all, e => KeyOf(card, e) in slots);
    AddedValue(card, rows, es);
    forall k | k in rows
      ensures Value(a.milestones, k) == AddMilestoneEntries(card, rows, es)[k].value
    {
      KeepInSlotsSum(card, slots, all, k);
    }
  }

  /** The milestone rows of the rebuilt windows agree too, and each record holds, of those windows,
      the entries the replay gives it. */
  lemma {:induction false} LiveRefinesMilestones(b: Book, card: Card, slots: Table, rows: Table, ts: seq<Txn>,
                                                 threshold: Id -> int)
    requires OneExclusion(card) && Clean(b) && SameMilestones(b.milestones, rows) && rows.Keys == slots.Keys
             && DistinctIds(ts)
    requires forall k: Key :: k in slots ==> k.card == card.id
    requires forall t :: t in ts ==> Fresh(b, t)
    ensures var live := Run(b, Applies(card, ts), threshold);
      && SameMilestones(live.milestones, MilestoneReplay(card, slots, rows, ts, {}))
      && forall t :: t in ts ==>
           t.id in live.txns &&
           Keep(EntriesOf(live.txns[t.id].record, Milestones), e => KeyOf(card, e) in slots)
           == SortEntries(NewMilestones(card, slots, t.context))
    decreases |ts|
  {
    if ts != [] {
      assert ts[0] in ts && Fresh(b, ts[0]);
      var t, a := ts[0], Applied(b, card, ts[0].id, threshold);
      var next := AddMilestoneEntries(card, rows, NewMilestones(card, slots, t.context));
      assert Applies(card, ts)[1..] == Applies(card, ts[1..]);
      TailIds(ts);
      AppliedParts(b, card, t, threshold);
      StillFresh(b, a, ts);
      MilestoneStep(b, card, slots, rows, t, threshold);
      assert Counts(t, {});
      hide Applied, Compute, AddCaps, NewMilestones, AddMilestoneEntries, SortEntries, Keep, OneExclusion, Clean,
      SameMilestones, Fresh;
      LiveRefinesMilestones(a, card, slots, next, ts[1..], threshold);
      LiveOthers(a, card, ts[1..], threshold, t.id);
      assert Run(b, Applies(card, ts), threshold) == Run(a, Applies(card, ts[1..]), threshold);
      forall u | u in ts && u != t
        ensures u in ts[1..]
      {
      }
    }
  }

  lemma ExcludedAsPlanned(card: Card, ctx: Context, rows: Table)
    requires OneExclusion(card)
    ensures Compute(card, ctx, rows).excluded == card.engine.plan(ctx).excluded
  {
  }

  // ---- the same rows ----------------------------------------------------------------------------

  /** The kind and native amount a cap counts in. */
  datatype Units = Units(kind: Id -> Kind, amount: Id -> int)

  ghost predicate FixedUnits(card: Card, units: Units) {
    forall ctx, a :: a in card.engine.plan(ctx).caps ==> a.kind == units.kind(a.id) && a.amount == units.amount(a.id)
  }

  /** A row being rebuilt: still empty and without kind, or positive and with its cap's. */
  ghost predicate Plain(card: Card, units: Units, k: Key, row: Row) {
    && k.card == card.id && k.rule in card.caps && row.value >= 0
    && var w := card.windows.cap(k.rule, k.start);
       && w.start == k.start && row.end == w.end
       && row.mark == if row.value == 0 then CapMark(None, None, w.approximate)
                      else CapMark(Some(units.kind(k.rule)), Some(units.amount(k.rule)), w.approximate)
  }

  ghost predicate PlainRows(card: Card, units: Units, rows: Table) {
    forall k :: k in rows ==> Plain(card, units, k, rows[k])
  }

  ghost predicate PlainMoves(card: Card, units: Units, day: int, moves: seq<Move>) {
    forall i :: 0 <= i < |moves| ==>
      var e := moves[i].entry;
      && e.id in card.caps && e.delta > 0 && e.kind == Some(units.kind(e.id)) && moves[i].amount == units.amount(e.id)
      && card.windows.cap(e.id, day) == Window(e.start, e.end, moves[i].approximate)
  }

  lemma {:induction false} CapMovesPlain(card: Card, units: Units, caps: seq<AppliedCap>, deltas: map<Id, nat>,
                                         day: int)
    requires forall a :: a in caps ==> a.id in card.caps && a.kind == units.kind(a.id) && a.amount == units.amount(a.id)
    ensures PlainMoves(card, units, day, CapMoves(card, caps, deltas, day))
    decreases |caps|
  {
    if caps != [] {
      CapMovesPlain(card, units, caps[1..], deltas, day);
      assert caps[0] in caps;
    }
  }

  function MovedRow(card: Card, rows: Table, m: Move): Row {
    var k := KeyOf(card, m.entry);
    if k in rows then AddToRow(card, rows[k], m.entry, Some(m.amount))
    else Row(m.entry.end, m.entry.delta, CapMark(m.entry.kind, Some(m.amount), m.approximate))
  }

  lemma MovedRowPlain(card: Card, units: Units, rows: Table, m: Move, day: int)
    requires Tiled(card) && PlainMoves(card, units, day, [m])
    requires KeyOf(card, m.entry) in rows ==> Plain(card, units, KeyOf(card, m.entry), rows[KeyOf(card, m.entry)])
    ensures var k := KeyOf(card, m.entry);
      && Plain(card, units, k, MovedRow(card, rows, m))
      && MovedRow(card, rows, m) == Row(m.entry.end, (if k in rows then rows[k].value else 0) + m.entry.delta,
                                        CapMarkOf(m))
  {
    assert [m][0] == m;
    assert TiledCap(card, m.entry.id);
    assert card.windows.cap(m.entry.id, m.entry.start) == card.windows.cap(m.entry.id, day);
  }

  /** One move makes the same row from an absent live row as from an empty rebuilt one. */
  lemma OneMoveSame(card: Card, units: Units, rows: Table, m: Move, day: int)
    requires Tiled(card) && PlainRows(card, units, rows) && PlainMoves(card, units, day, [m])
    ensures var k := KeyOf(card, m.entry);
      && PlainRows(card, units, rows[k := MovedRow(card, rows, m)])
      && Positive(rows[k := MovedRow(card, rows, m)])
         == AddRow(Positive(rows), k, m.entry.end, m.entry.delta, CapMarkOf(m))
  {
    var k, row := KeyOf(card, m.entry), MovedRow(card, rows, m);
    assert [m][0] == m;
    assert k in rows ==> Plain(card, units, k, rows[k]) && rows[k].value >= 0;
    MovedRowPlain(card, units, rows, m, day);
    hide Plain, Tiled, MovedRow, PlainMoves;
    assert row.value > 0;
    assert Positive(rows[k := row]) == Positive(rows)[k := row];
  }

  lemma {:induction false} MovesSame(card: Card, units: Units, rows: Table, moves: seq<Move>, day: int)
    requires Tiled(card) && PlainRows(card, units, rows) && PlainMoves(card, units, day, moves)
    ensures PlainRows(card, units, MoveRows(card, rows, moves))
    ensures AddCaps(Positive(rows), card.id, moves) == Positive(MoveRows(card, rows, moves))
    decreases |moves|
  {
    if moves != [] {
      assert PlainMoves(card, units, day, [moves[0]]);
      OneMoveSame(card, units, rows, moves[0], day);
      assert PlainMoves(card, units, day, moves[1..]);
      hide PlainRows, PlainMoves, AddToRow, Tiled, Positive;
      MovesSame(card, units, rows[KeyOf(card, moves[0].entry) := MovedRow(card, rows, moves[0])], moves[1..], day);
    }
  }

  lemma ComputedPlain(card: Card, units: Units, ctx: Context, rows: Table)
    requires OwnCaps(card) && FixedUnits(card, units)
    ensures PlainMoves(card, units, IstDay(ctx.occurred), Compute(card, ctx, rows).moves)
  {
    var plan, day := card.engine.plan(ctx), IstDay(ctx.occurred);
    CapMovesPlain(card, units, plan.caps, card.engine.price(ctx, ConsumedBefore(card, rows, plan.caps, day)).deltas,
                  day);
  }

  lemma {:induction false} AddSlotsPlain(rows: Table, card: Card, units: Units, id: Id, ws: seq<Window>)
    requires PlainRows(card, units, rows) && (forall k :: k in rows ==> rows[k].value == 0) && id in card.caps
    requires forall v :: v in ws ==> IsWindow(card, id, v)
    ensures var slots := AddSlots(rows, card, id, ws);
      PlainRows(card, units, slots) && forall k :: k in slots ==> slots[k].value == 0
    decreases |ws|
  {
    if ws != [] {
      assert IsWindow(card, id, ws[0]);
      AddSlotsPlain(rows[Key(card.id, id, ws[0].start) := Row(ws[0].end, 0, CapMark(None, None, ws[0].approximate))],
                    card, units, id, ws[1..]);
    }
  }

  lemma {:induction false} SlotsForPlain(rows: Table, card: Card, units: Units, range: Range, ids: seq<Id>)
    requires Tiled(card) && range.caps.Some? && GoodRange(range)
    requires PlainRows(card, units, rows) && (forall k :: k in rows ==> rows[k].value == 0)
    requires forall id :: id in ids ==> id in card.caps
    ensures var slots := SlotsFor(rows, card, range, ids);
      PlainRows(card, units, slots) && forall k :: k in slots ==> slots[k].value == 0
    decreases |ids|
  {
    if ids != [] {
      PeriodsDated(card, range, ids[0]);
      AddSlotsPlain(rows, card, units, ids[0], PeriodsOf(card, range, ids[0]));
      SlotsForPlain(AddSlots(rows, card, ids[0], PeriodsOf(card, range, ids[0])), card, units, range, ids[1..]);
    }
  }

  lemma SlotsPlain(card: Card, units: Units, range: Range)
    requires Tiled(card) && range.caps.Some? && GoodRange(range)
    ensures var slots := Slots(card, range);
      PlainRows(card, units, slots) && forall k :: k in slots ==> slots[k].value == 0
  {
    SlotsForPlain(map[], card, units, range, card.caps);
  }

  // ---- the order of the input ---------------------------------------------------------------------

  function InsertTxn(t: Txn, ts: seq<Txn>): seq<Txn> {
    if ts == [] || !TimeBefore(ts[0], t) then [t] + ts else [ts[0]] + InsertTxn(t, ts[1..])
  }

  /** `planReplay` orders its input by time, then id. */
  function SortTxns(ts: seq<Txn>): seq<Txn> {
    if ts == [] then [] else InsertTxn(ts[0], SortTxns(ts[1..]))
  }

  lemma {:induction false} InsertTxnOrdered(t: Txn, ts: seq<Txn>)
    requires Ordered(ts) && forall u :: u in ts ==> u.id != t.id
    ensures Ordered(InsertTxn(t, ts))
    ensures forall u :: u in InsertTxn(t, ts) <==> u == t || u in ts
  {
    if ts != [] && TimeBefore(ts[0], t) {
      OrderedTail(ts);
      InsertTxnOrdered(t, ts[1..]);
      var rest := InsertTxn(t, ts[1..]);
      forall i | 0 <= i < |rest|
        ensures TimeBefore(ts[0], rest[i])
      {
        assert rest[i] in rest;
      }
    } else if ts != [] {
      OrderedTail(ts);
      assert ts[0] in ts;
      forall i | 0 <= i < |ts|
        ensures TimeBefore(t, ts[i])
      {
        assert ts[i] in ts;
      }
    }
  }

  lemma {:induction false} SortTxnsOrdered(ts: seq<Txn>)
    requires DistinctIds(ts)
    ensures Ordered(SortTxns(ts))
    ensures forall u :: u in SortTxns(ts) <==> u in ts
    decreases |ts|
  {
    if ts != [] {
      TailIds(ts);
      SortTxnsOrdered(ts[1..]);
      forall u | u in SortTxns(ts[1..])
        ensures u.id != ts[0].id
      {
        assert u.id in Ids(ts[1..]);
      }
      InsertTxnOrdered(ts[0], SortTxns(ts[1..]));
    }
  }

  /** Whatever order the same transactions are given in, the plan is one and the same. */
  lemma PlanIgnoresOrder(card: Card, range: Range, ts: seq<Txn>, us: seq<Txn>, expected: bool, excluded: set<Id>,
                         caps: Table, milestones: Table)
    requires DistinctIds(ts) && DistinctIds(us) && forall t :: t in ts <==> t in us
    ensures PlanOf(card, range, SortTxns(ts), expected, excluded, caps, milestones)
         == PlanOf(card, range, SortTxns(us), expected, excluded, caps, milestones)
  {
    hide PlanOf;
    SortTxnsOrdered(ts);
    SortTxnsOrdered(us);
    OrderUnique(SortTxns(ts), SortTxns(us));
  }
}
