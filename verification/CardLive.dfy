/** Live recording: apply and reverse one transaction, and what every run of them keeps. */
module CardLive {
  import opened Basics
  import opened Cycles
  import opened CardRecords
  import opened CardModel

  // ---- row writes ------------------------------------------------------------------------

  /** The update of `reverseRecord`: clamped at zero, and only of a row that exists. */
  function SubtractRow(t: Table, k: Key, delta: nat): Table {
    if k in t then t[k := t[k].(value := Max(0, t[k].value - delta))] else t
  }

  function Subtract(t: Table, card: Id, es: seq<Entry>): Table
    decreases |es|
  {
    if es == [] then t else Subtract(SubtractRow(t, Key(card, es[0].id, es[0].start), es[0].delta), card, es[1..])
  }

  /** `settleFeeWaiver`: waived at or above the threshold, un-waived below it. */
  function Settle(row: Row, threshold: int): Row {
    if row.mark.FeeMark? then
      if !row.mark.waived && row.value >= threshold then row.(mark := FeeMark(true))
      else if row.mark.waived && row.value < threshold then row.(mark := FeeMark(false))
      else row
    else row
  }

  function SettleAt(t: Table, k: Key, threshold: Id -> int): Table {
    if k in t then t[k := Settle(t[k], threshold(k.rule))] else t
  }

  function SubtractFees(t: Table, card: Id, es: seq<Entry>, threshold: Id -> int): Table
    decreases |es|
  {
    if es == [] then t
    else
      var k := Key(card, es[0].id, es[0].start);
      SubtractFees(SettleAt(SubtractRow(t, k, es[0].delta), k, threshold), card, es[1..], threshold)
  }

  /** The upsert of a live cap or milestone row. */
  function AddRow(t: Table, k: Key, end: int, delta: nat, mark: Mark): Table {
    t[k := Row(end, Max(0, Value(t, k) + delta), mark)]
  }

  function CapMarkOf(m: Move): Mark { CapMark(m.entry.kind, Some(m.amount), m.approximate) }

  function AddCaps(t: Table, card: Id, moves: seq<Move>): Table
    decreases |moves|
  {
    if moves == [] then t
    else
      var e := moves[0].entry;
      AddCaps(AddRow(t, Key(card, e.id, e.start), e.end, e.delta, CapMarkOf(moves[0])), card, moves[1..])
  }

  function AddMilestones(t: Table, card: Id, moves: seq<Move>): Table
    decreases |moves|
  {
    if moves == [] then t
    else
      var e := moves[0].entry;
      AddMilestones(AddRow(t, Key(card, e.id, e.start), e.end, e.delta, MilestoneMark(moves[0].approximate)),
                    card, moves[1..])
  }

  /** The fee-waiver upsert keeps an existing row's end and mark. */
  function AddFeeRow(t: Table, k: Key, end: int, delta: nat): Table {
    if k in t then t[k := t[k].(value := Max(0, t[k].value + delta))]
    else t[k := Row(end, Max(0, delta), FeeMark(false))]
  }

  function AddFees(t: Table, card: Id, moves: seq<Move>, threshold: Id -> int): Table
    decreases |moves|
  {
    if moves == [] then t
    else
      var e, k := moves[0].entry, Key(card, moves[0].entry.id, moves[0].entry.start);
      AddFees(SettleAt(AddFeeRow(t, k, e.end, e.delta), k, threshold), card, moves[1..], threshold)
  }

  // ---- operations --------------------------------------------------------------------------

  /** `reverseRecord`: subtracts a record's entries from the rows of the card it names. */
  function Undo(b: Book, record: Option<Record>, threshold: Id -> int): Book {
    match record
    case None => b
    case Some(r) =>
      b.(caps := Subtract(b.caps, r.card, r.caps), milestones := Subtract(b.milestones, r.card, r.milestones),
         fees := SubtractFees(b.fees, r.card, r.fees, threshold))
  }

  /** Applying twice must not count twice: what the transaction still carries goes first. */
  function Cleared(b: Book, id: Id, threshold: Id -> int): Book
    requires id in b.txns
  {
    if b.txns[id].record.None? then b
    else var u := Undo(b, b.txns[id].record, threshold); u.(ledger := u.ledger - {id})
  }

  /** A planned row the v1 path wrote has no kind; it makes the apply rebuild first. */
  predicate Stale(card: Card, rows: Table, ctx: Context) {
    exists id :: id in PlannedIds(card.engine.plan(ctx).caps) &&
      var k := Key(card.id, id, card.windows.cap(id, IstDay(ctx.occurred)).start);
      k in rows && rows[k].mark.CapMark? && rows[k].mark.kind.None?
  }

  function ZeroedExpected(e: Expected): Expected {
    Expected(Some(0), Some(0), if e.cashback.None? then None else Some(0))
  }

  /** `applyTransactionV2` once the rows it prices against are good. */
  function Recorded(b: Book, card: Card, id: Id, threshold: Id -> int): Book
    requires id in b.txns
  {
    var t := b.txns[id];
    var out := Compute(card, t.context, b.caps);
    var ms := MilestoneEntries(card, t.context, out.excluded);
    var fs := FeeEntries(card, t.context, out.excluded);
    var record := ToRecord(card.id, Entries(out.moves), Entries(ms), Entries(fs));
    Book(AddCaps(b.caps, card.id, out.moves), AddMilestones(b.milestones, card.id, ms),
         AddFees(b.fees, card.id, fs, threshold),
         b.txns[id := t.(record := record, expected := Expected(Some(out.native), Some(out.value), out.cashback))],
         if out.native > 0 then b.ledger[id := out.native] else b.ledger)
  }

  /** `applyTransactionV2` when no planned row is stale. */
  function Applied(b: Book, card: Card, id: Id, threshold: Id -> int): Book
    requires id in b.txns
  {
    Recorded(Cleared(b, id, threshold), card, id, threshold)
  }

  /** What both a reversal and a deferred reversal leave on the transaction. */
  function Detached(b: Book, id: Id): Book
    requires id in b.txns
  {
    var t := b.txns[id];
    b.(txns := b.txns[id := t.(record := None, expected := ZeroedExpected(t.expected))], ledger := b.ledger - {id})
  }

  /** `reverseTransactionV2`. */
  function Reversed(b: Book, id: Id, threshold: Id -> int): Book
    requires id in b.txns
  {
    Detached(Undo(b, b.txns[id].record, threshold), id)
  }

  /** A failed apply: rolled back to the savepoint, then the record is dropped. */
  function DeferredApply(b: Book, id: Id): Book
    requires id in b.txns
  {
    b.(txns := b.txns[id := b.txns[id].(record := None)])
  }

  // ---- values after row writes ---------------------------------------------------------------

  /** The rows a section's table must carry for `es` to be subtracted without clamping. */
  ghost predicate Carries(t: Table, card: Id, es: seq<Entry>) {
    forall k: Key :: k.card == card ==> EntrySum(es, k.rule, k.start) <= Value(t, k)
  }

  function SumAt(card: Id, es: seq<Entry>, k: Key): nat {
    if k.card == card then EntrySum(es, k.rule, k.start) else 0
  }

  lemma CarriesTail(t: Table, card: Id, es: seq<Entry>)
    requires es != [] && Carries(t, card, es)
    ensures var k := Key(card, es[0].id, es[0].start);
      && es[0].delta <= Value(t, k)
      && Carries(SubtractRow(t, k, es[0].delta), card, es[1..])
  {
  }

  /** While rows carry what records say, the clamp never acts: subtraction is exact. */
  lemma {:induction false} SubtractExact(t: Table, card: Id, es: seq<Entry>)
    requires Carries(t, card, es)
    ensures forall k :: Value(Subtract(t, card, es), k) == Value(t, k) - SumAt(card, es, k)
    ensures Subtract(t, card, es).Keys == t.Keys
    decreases |es|
  {
    if es != [] {
      CarriesTail(t, card, es);
      SubtractExact(SubtractRow(t, Key(card, es[0].id, es[0].start), es[0].delta), card, es[1..]);
    }
  }

  lemma {:induction false} SubtractFeesExact(t: Table, card: Id, es: seq<Entry>, threshold: Id -> int)
    requires Carries(t, card, es)
    ensures forall k :: Value(SubtractFees(t, card, es, threshold), k) == Value(t, k) - SumAt(card, es, k)
    ensures SubtractFees(t, card, es, threshold).Keys == t.Keys
    decreases |es|
  {
    if es != [] {
      CarriesTail(t, card, es);
      var k := Key(card, es[0].id, es[0].start);
      var after := SettleAt(SubtractRow(t, k, es[0].delta), k, threshold);
      forall j: Key
        ensures Value(after, j) == Value(SubtractRow(t, k, es[0].delta), j)
      {
      }
      assert Carries(after, card, es[1..]);
      SubtractFeesExact(after, card, es[1..], threshold);
    }
  }

  ghost predicate NonNegative(t: Table) {
    forall k :: Value(t, k) >= 0
  }

  lemma {:induction false} AddCapsExact(t: Table, card: Id, moves: seq<Move>)
    requires NonNegative(t)
    ensures forall k :: Value(AddCaps(t, card, moves), k) == Value(t, k) + SumAt(card, Entries(moves), k)
    decreases |moves|
  {
    if moves != [] {
      var e := moves[0].entry;
      var after := AddRow(t, Key(card, e.id, e.start), e.end, e.delta, CapMarkOf(moves[0]));
      assert Entries(moves)[1..] == Entries(moves[1..]);
      forall k
        ensures Value(after, k) == Value(t, k) + if k == Key(card, e.id, e.start) then e.delta else 0
      {
        assert Value(t, k) >= 0;
      }
      AddCapsExact(after, card, moves[1..]);
    }
  }

  lemma {:induction false} AddMilestonesExact(t: Table, card: Id, moves: seq<Move>)
    requires NonNegative(t)
    ensures forall k :: Value(AddMilestones(t, card, moves), k) == Value(t, k) + SumAt(card, Entries(moves), k)
    decreases |moves|
  {
    if moves != [] {
      var e := moves[0].entry;
      var after := AddRow(t, Key(card, e.id, e.start), e.end, e.delta, MilestoneMark(moves[0].approximate));
      assert Entries(moves)[1..] == Entries(moves[1..]);
      forall k
        ensures Value(after, k) == Value(t, k) + if k == Key(card, e.id, e.start) then e.delta else 0
      {
        assert Value(t, k) >= 0;
      }
      AddMilestonesExact(after, card, moves[1..]);
    }
  }

  lemma {:induction false} AddFeesExact(t: Table, card: Id, moves: seq<Move>, threshold: Id -> int)
    requires NonNegative(t)
    ensures forall k :: Value(AddFees(t, card, moves, threshold), k) == Value(t, k) + SumAt(card, Entries(moves), k)
    decreases |moves|
  {
    if moves != [] {
      var e := moves[0].entry;
      var at := Key(card, e.id, e.start);
      var after := SettleAt(AddFeeRow(t, at, e.end, e.delta), at, threshold);
      assert Entries(moves)[1..] == Entries(moves[1..]);
      forall k
        ensures Value(after, k) == Value(t, k) + if k == Key(card, e.id, e.start) then e.delta else 0
      {
        assert Value(t, k) >= 0;
      }
      AddFeesExact(after, card, moves[1..], threshold);
    }
  }

  // ---- the invariant over runs ---------------------------------------------------------------

  /** Ids are keys, and every counter is at least the sum of its record entries. */
  ghost predicate Keyed(b: Book) {
    forall id :: id in b.txns ==> b.txns[id].id == id
  }

  ghost predicate AtLeastRecorded(b: Book) {
    forall section, k :: Total(b.txns, section, k) <= Value(TableOf(b, section), k)
  }

  /** The documented invariant: every counter is the sum of its record entries. */
  ghost predicate Agrees(b: Book) {
    forall section, k :: Value(TableOf(b, section), k) == Total(b.txns, section, k)
  }

  /** `waived_at` is set exactly when qualified spend reaches the threshold. */
  ghost predicate WaiversSettled(t: Table, threshold: Id -> int) {
    forall k :: k in t ==> t[k].mark.FeeMark? && (t[k].mark.waived <==> t[k].value >= threshold(k.rule))
  }

  /** No row of the v1 path: every cap row has a kind. */
  ghost predicate KindsKnown(t: Table) {
    forall k :: k in t ==> t[k].mark.CapMark? && t[k].mark.kind.Some?
  }

  ghost predicate Consistent(b: Book, threshold: Id -> int) {
    Keyed(b) && AtLeastRecorded(b) && WaiversSettled(b.fees, threshold) && KindsKnown(b.caps)
  }

  lemma RecordCarried(b: Book, id: Id, section: Section)
    requires AtLeastRecorded(b) && id in b.txns && b.txns[id].record.Some?
    ensures Carries(TableOf(b, section), b.txns[id].record.value.card, EntriesOf(b.txns[id].record, section))
  {
    var r := b.txns[id].record;
    forall k: Key | k.card == r.value.card
      ensures EntrySum(EntriesOf(r, section), k.rule, k.start) <= Value(TableOf(b, section), k)
    {
      TotalMember(b.txns, id, section, k);
    }
  }

  /** Undoing a transaction's record takes exactly its entries off every counter. */
  lemma UndoExact(b: Book, id: Id, threshold: Id -> int)
    requires AtLeastRecorded(b) && id in b.txns
    ensures var u := Undo(b, b.txns[id].record, threshold);
      forall section, k :: Value(TableOf(u, section), k)
                        == Value(TableOf(b, section), k) - RecordSum(b.txns[id].record, section, k)
  {
    var r := b.txns[id].record;
    if r.Some? {
      RecordCarried(b, id, Caps);
      RecordCarried(b, id, Milestones);
      RecordCarried(b, id, Fees);
      SubtractExact(b.caps, r.value.card, r.value.caps);
      SubtractExact(b.milestones, r.value.card, r.value.milestones);
      SubtractFeesExact(b.fees, r.value.card, r.value.fees, threshold);
    }
  }

  lemma {:induction false} SubtractFeesSettled(t: Table, card: Id, es: seq<Entry>, threshold: Id -> int)
    requires WaiversSettled(t, threshold)
    ensures WaiversSettled(SubtractFees(t, card, es, threshold), threshold)
    decreases |es|
  {
    if es != [] {
      var k := Key(card, es[0].id, es[0].start);
      SubtractFeesSettled(SettleAt(SubtractRow(t, k, es[0].delta), k, threshold), card, es[1..], threshold);
    }
  }

  lemma {:induction false} AddFeesSettled(t: Table, card: Id, moves: seq<Move>, threshold: Id -> int)
    requires WaiversSettled(t, threshold)
    ensures WaiversSettled(AddFees(t, card, moves, threshold), threshold)
    decreases |moves|
  {
    if moves != [] {
      var e, k := moves[0].entry, Key(card, moves[0].entry.id, moves[0].entry.start);
      AddFeesSettled(SettleAt(AddFeeRow(t, k, e.end, e.delta), k, threshold), card, moves[1..], threshold);
    }
  }

  lemma {:induction false} SubtractKinds(t: Table, card: Id, es: seq<Entry>)
    requires KindsKnown(t)
    ensures KindsKnown(Subtract(t, card, es))
    decreases |es|
  {
    if es != [] {
      SubtractKinds(SubtractRow(t, Key(card, es[0].id, es[0].start), es[0].delta), card, es[1..]);
    }
  }

  lemma {:induction false} AddCapsKinds(t: Table, card: Id, moves: seq<Move>)
    requires KindsKnown(t)
    requires forall i :: 0 <= i < |moves| ==> moves[i].entry.kind.Some?
    ensures KindsKnown(AddCaps(t, card, moves))
    decreases |moves|
  {
    if moves != [] {
      var e := moves[0].entry;
      AddCapsKinds(AddRow(t, Key(card, e.id, e.start), e.end, e.delta, CapMarkOf(moves[0])), card, moves[1..]);
    }
  }

  lemma {:induction false} CapMovesKinds(card: Card, caps: seq<AppliedCap>, deltas: map<Id, nat>, day: int)
    ensures forall i :: 0 <= i < |CapMoves(card, caps, deltas, day)| ==>
                          CapMoves(card, caps, deltas, day)[i].entry.kind.Some?
  {
    if caps != [] {
      CapMovesKinds(card, caps[1..], deltas, day);
    }
  }

  lemma UndoConsistent(b: Book, id: Id, threshold: Id -> int)
    requires Consistent(b, threshold) && id in b.txns
    ensures var u := Undo(b, b.txns[id].record, threshold);
      WaiversSettled(u.fees, threshold) && KindsKnown(u.caps)
  {
    var r := b.txns[id].record;
    if r.Some? {
      SubtractKinds(b.caps, r.value.card, r.value.caps);
      SubtractFeesSettled(b.fees, r.value.card, r.value.fees, threshold);
    }
  }

  /** How far each counter is above the sum of its entries: what deferred failures left behind. */
  ghost function Excess(b: Book, section: Section, k: Key): int {
    Value(TableOf(b, section), k) - Total(b.txns, section, k)
  }

  /** Reversal changes no counter's excess: it takes off exactly what the record said. */
  lemma ReversedKeeps(b: Book, id: Id, threshold: Id -> int)
    requires Consistent(b, threshold) && id in b.txns
    ensures Consistent(Reversed(b, id, threshold), threshold)
    ensures forall section, k :: Excess(Reversed(b, id, threshold), section, k) == Excess(b, section, k)
  {
    UndoExact(b, id, threshold);
    UndoConsistent(b, id, threshold);
    var a := Reversed(b, id, threshold);
    forall section, k
      ensures Excess(a, section, k) == Excess(b, section, k)
      ensures Total(a.txns, section, k) <= Value(TableOf(a, section), k)
    {
      TotalUpdate(b.txns, a.txns[id], section, k);
      assert Total(b.txns, section, k) <= Value(TableOf(b, section), k);
    }
  }

  lemma RecordedSum(b: Book, card: Card, id: Id, threshold: Id -> int, section: Section, k: Key)
    requires id in b.txns && NonNegative(b.caps) && NonNegative(b.milestones) && NonNegative(b.fees)
    ensures var a := Recorded(b, card, id, threshold);
      Value(TableOf(a, section), k) == Value(TableOf(b, section), k) + RecordSum(a.txns[id].record, section, k)
  {
    var t := b.txns[id];
    var out := Compute(card, t.context, b.caps);
    var ms := MilestoneEntries(card, t.context, out.excluded);
    var fs := FeeEntries(card, t.context, out.excluded);
    AddCapsExact(b.caps, card.id, out.moves);
    AddMilestonesExact(b.milestones, card.id, ms);
    AddFeesExact(b.fees, card.id, fs, threshold);
    EntrySumSort(Entries(out.moves), k.rule, k.start);
    EntrySumSort(Entries(ms), k.rule, k.start);
    EntrySumSort(Entries(fs), k.rule, k.start);
  }

  lemma ClearedNonNegative(b: Book, id: Id, threshold: Id -> int)
    requires AtLeastRecorded(b) && id in b.txns
    ensures var c := Cleared(b, id, threshold);
      NonNegative(c.caps) && NonNegative(c.milestones) && NonNegative(c.fees)
  {
    UndoExact(b, id, threshold);
    var c := Cleared(b, id, threshold);
    forall section, k
      ensures Value(TableOf(c, section), k) >= 0
    {
      TotalMember(b.txns, id, section, k);
      assert Total(b.txns, section, k) <= Value(TableOf(b, section), k);
    }
    forall k
      ensures Value(c.caps, k) >= 0 && Value(c.milestones, k) >= 0 && Value(c.fees, k) >= 0
    {
      assert Value(TableOf(c, Caps), k) >= 0 && Value(TableOf(c, Milestones), k) >= 0
             && Value(TableOf(c, Fees), k) >= 0;
    }
  }

  /** An apply adds to each counter what it adds to the sum, after taking both back. */
  lemma AppliedSums(b: Book, card: Card, id: Id, threshold: Id -> int, section: Section, k: Key)
    requires Consistent(b, threshold) && id in b.txns
    ensures var a := Applied(b, card, id, threshold);
      && Excess(a, section, k) == Excess(b, section, k)
      && Total(a.txns, section, k) <= Value(TableOf(a, section), k)
  {
    AppliedTxns(b, card, id, threshold);
    ClearedNonNegative(b, id, threshold);
    hide Recorded, Cleared;
    var a := Applied(b, card, id, threshold);
    ClearedSum(b, id, threshold, section, k);
    RecordedSum(Cleared(b, id, threshold), card, id, threshold, section, k);
    TotalUpdate(b.txns, a.txns[id], section, k);
    assert Total(b.txns, section, k) <= Value(TableOf(b, section), k);
  }

  /** So does an apply, whether or not the transaction was already recorded. */
  lemma AppliedKeeps(b: Book, card: Card, id: Id, threshold: Id -> int)
    requires Consistent(b, threshold) && id in b.txns
    ensures Consistent(Applied(b, card, id, threshold), threshold)
    ensures forall section, k :: Excess(Applied(b, card, id, threshold), section, k) == Excess(b, section, k)
  {
    AppliedTxns(b, card, id, threshold);
    hide Applied, Excess, WaiversSettled, KindsKnown;
    forall section, k
      ensures Excess(Applied(b, card, id, threshold), section, k) == Excess(b, section, k)
      ensures Total(Applied(b, card, id, threshold).txns, section, k) <= Value(TableOf(Applied(b, card, id, threshold),
          section), k)
    {
      AppliedSums(b, card, id, threshold, section, k);
    }
    assert AtLeastRecorded(Applied(b, card, id, threshold));
    AppliedSettled(b, card, id, threshold);
  }

  lemma AppliedSettled(b: Book, card: Card, id: Id, threshold: Id -> int)
    requires Consistent(b, threshold) && id in b.txns
    ensures var a := Applied(b, card, id, threshold); WaiversSettled(a.fees, threshold) && KindsKnown(a.caps)
  {
    UndoConsistent(b, id, threshold);
    hide Recorded, WaiversSettled, KindsKnown, Undo;
    RecordedSettled(Cleared(b, id, threshold), card, id, threshold);
  }

  lemma RecordedSettled(c: Book, card: Card, id: Id, threshold: Id -> int)
    requires WaiversSettled(c.fees, threshold) && KindsKnown(c.caps) && id in c.txns
    ensures var a := Recorded(c, card, id, threshold); WaiversSettled(a.fees, threshold) && KindsKnown(a.caps)
  {
    var ctx := c.txns[id].context;
    var out, plan, day := Compute(card, ctx, c.caps), card.engine.plan(ctx), IstDay(ctx.occurred);
    CapMovesKinds(card, plan.caps, card.engine.price(ctx, ConsumedBefore(card, c.caps, plan.caps, day)).deltas, day);
    AddCapsKinds(c.caps, card.id, out.moves);
    AddFeesSettled(c.fees, card.id, FeeEntries(card, ctx, out.excluded), threshold);
  }

  /** A deferred failure strands the dropped record's entries on the rows, and nothing else. */
  lemma DeferralKeeps(b: Book, id: Id, threshold: Id -> int)
    requires Consistent(b, threshold) && id in b.txns
    ensures Consistent(DeferredApply(b, id), threshold) && Consistent(Detached(b, id), threshold)
    ensures forall section, k ::
              Excess(DeferredApply(b, id), section, k) == Excess(b, section, k) + RecordSum(b.txns[id].record, section,
                  k)
    ensures forall section, k ::
              Excess(Detached(b, id), section, k) == Excess(b, section, k) + RecordSum(b.txns[id].record, section, k)
  {
    var a, d := DeferredApply(b, id), Detached(b, id);
    forall section, k
      ensures Excess(a, section, k) == Excess(b, section, k) + RecordSum(b.txns[id].record, section, k)
      ensures Excess(d, section, k) == Excess(b, section, k) + RecordSum(b.txns[id].record, section, k)
      ensures Total(a.txns, section, k) <= Value(TableOf(a, section), k)
      ensures Total(d.txns, section, k) <= Value(TableOf(d, section), k)
    {
      TotalUpdate(b.txns, a.txns[id], section, k);
      TotalUpdate(b.txns, d.txns[id], section, k);
      assert Total(b.txns, section, k) <= Value(TableOf(b, section), k);
    }
  }

  // ---- runs ------------------------------------------------------------------------------------

  /** What can happen to the book: the hook's four outcomes, and the writes of its callers, which
      insert a transaction without a record or change the other fields of one. */
  datatype Op =
    | Apply(card: Card, id: Id)
    | Reverse(id: Id)
    | FailedApply(id: Id)
    | FailedReverse(id: Id)
    | Write(txn: Txn)

  predicate Deferral(op: Op) { op.FailedApply? || op.FailedReverse? }

  function Step(b: Book, op: Op, threshold: Id -> int): Book {
    match op
    case Apply(card, id) => if id in b.txns then Applied(b, card, id, threshold) else b
    case Reverse(id) => if id in b.txns then Reversed(b, id, threshold) else b
    case FailedApply(id) => if id in b.txns then DeferredApply(b, id) else b
    case FailedReverse(id) => if id in b.txns then Detached(b, id) else b
    case Write(t) =>
      b.(txns := b.txns[t.id := t.(record := if t.id in b.txns then b.txns[t.id].record else None)])
  }

  function Run(b: Book, ops: seq<Op>, threshold: Id -> int): Book
    decreases |ops|
  {
    if ops == [] then b else Run(Step(b, ops[0], threshold), ops[1..], threshold)
  }

  /** The entries the deferred failures of a run dropped from records but left on rows. */
  ghost function Stranded(b: Book, ops: seq<Op>, threshold: Id -> int, section: Section, k: Key): nat
    decreases |ops|
  {
    if ops == [] then 0
    else
      (if Deferral(ops[0]) && ops[0].id in b.txns then RecordSum(b.txns[ops[0].id].record, section, k) else 0)
      + Stranded(Step(b, ops[0], threshold), ops[1..], threshold, section, k)
  }

  lemma WriteKeeps(b: Book, t: Txn, threshold: Id -> int)
    requires Consistent(b, threshold)
    ensures Consistent(Step(b, Write(t), threshold), threshold)
    ensures forall section, k :: Excess(Step(b, Write(t), threshold), section, k) == Excess(b, section, k)
  {
    var a := Step(b, Write(t), threshold);
    forall section, k
      ensures Excess(a, section, k) == Excess(b, section, k)
      ensures Total(a.txns, section, k) <= Value(TableOf(a, section), k)
    {
      if t.id in b.txns {
        TotalUpdate(b.txns, a.txns[t.id], section, k);
      } else {
        TotalPick(a.txns, t.id, section, k);
        assert a.txns - {t.id} == b.txns;
      }
      assert Total(b.txns, section, k) <= Value(TableOf(b, section), k);
    }
  }

  lemma StepKeeps(b: Book, op: Op, threshold: Id -> int)
    requires Consistent(b, threshold)
    ensures Consistent(Step(b, op, threshold), threshold)
    ensures forall section, k ::
              Excess(Step(b, op, threshold), section, k) == Excess(b, section, k)
                + if Deferral(op) && op.id in b.txns then RecordSum(b.txns[op.id].record, section, k) else 0
  {
    match op {
      case Apply(card, id) => if id in b.txns { AppliedKeeps(b, card, id, threshold); }
      case Reverse(id) => if id in b.txns { ReversedKeeps(b, id, threshold); }
      case FailedApply(id) => if id in b.txns { DeferralKeeps(b, id, threshold); }
      case FailedReverse(id) => if id in b.txns { DeferralKeeps(b, id, threshold); }
      case Write(t) => WriteKeeps(b, t, threshold);
    }
  }

  /** Over every run each counter stays at least the sum of its record entries, fee waivers stay
      settled, and the excess over that sum is exactly what deferred failures stranded. */
  lemma {:induction false} RunKeeps(b: Book, ops: seq<Op>, threshold: Id -> int)
    requires Consistent(b, threshold)
    ensures Consistent(Run(b, ops, threshold), threshold)
    ensures forall section, k ::
              Excess(Run(b, ops, threshold), section, k)
              == Excess(b, section, k) + Stranded(b, ops, threshold, section, k)
    decreases |ops|
  {
    if ops != [] {
      StepKeeps(b, ops[0], threshold);
      RunKeeps(Step(b, ops[0], threshold), ops[1..], threshold);
    }
  }

  /** From an empty store, every counter of every run without a deferred failure is the sum of
      its record entries. */
  lemma RunAgrees(ops: seq<Op>, threshold: Id -> int)
    requires forall i :: 0 <= i < |ops| ==> !Deferral(ops[i])
    ensures Agrees(Run(Book(map[], map[], map[], map[], map[]), ops, threshold))
  {
    var b := Book(map[], map[], map[], map[], map[]);
    RunKeeps(b, ops, threshold);
    forall section, k
      ensures Value(TableOf(Run(b, ops, threshold), section), k) == Total(Run(b, ops, threshold).txns, section, k)
    {
      NothingStranded(b, ops, threshold, section, k);
      assert Excess(Run(b, ops, threshold), section, k) == Excess(b, section, k) + 0;
    }
  }

  lemma {:induction false} NothingStranded(b: Book, ops: seq<Op>, threshold: Id -> int, section: Section, k: Key)
    requires forall i :: 0 <= i < |ops| ==> !Deferral(ops[i])
    ensures Stranded(b, ops, threshold, section, k) == 0
    decreases |ops|
  {
    if ops != [] {
      NothingStranded(Step(b, ops[0], threshold), ops[1..], threshold, section, k);
    }
  }

  /** Apply then reverse restores every counter to what it was without the transaction. */
  lemma ApplyThenReverse(b: Book, card: Card, id: Id, threshold: Id -> int)
    requires Consistent(b, threshold) && id in b.txns
    ensures var r := Reversed(Applied(b, card, id, threshold), id, threshold);
      && r.txns[id].record == None && id !in r.ledger
      && forall section, k :: Value(TableOf(r, section), k)
                           == Value(TableOf(b, section), k) - RecordSum(b.txns[id].record, section, k)
  {
    var a := Applied(b, card, id, threshold);
    var r := Reversed(a, id, threshold);
    AppliedKeeps(b, card, id, threshold);
    ReversedKeeps(a, id, threshold);
    forall section, k
      ensures Value(TableOf(r, section), k) == Value(TableOf(b, section), k) - RecordSum(b.txns[id].record, section, k)
    {
      TotalUpdate(b.txns, a.txns[id], section, k);
      TotalUpdate(a.txns, r.txns[id], section, k);
      assert Excess(r, section, k) == Excess(a, section, k) && Excess(a, section, k) == Excess(b, section, k);
    }
  }

  lemma ComputeByValue(card: Card, ctx: Context, a: Table, b: Table)
    requires forall k :: Value(a, k) == Value(b, k)
    ensures Compute(card, ctx, a) == Compute(card, ctx, b)
  {
    var caps, day := card.engine.plan(ctx).caps, IstDay(ctx.occurred);
    assert ConsumedBefore(card, a, caps, day) == ConsumedBefore(card, b, caps, day);
  }

  lemma ClearedSum(b: Book, id: Id, threshold: Id -> int, section: Section, k: Key)
    requires AtLeastRecorded(b) && id in b.txns
    ensures Value(TableOf(Cleared(b, id, threshold), section), k)
         == Value(TableOf(b, section), k) - RecordSum(b.txns[id].record, section, k)
  {
    UndoExact(b, id, threshold);
  }

  /** Clearing an applied transaction gives back the counters its first clearing left. */
  lemma ClearedAgain(b: Book, card: Card, id: Id, threshold: Id -> int, section: Section, k: Key)
    requires Consistent(b, threshold) && id in b.txns
    ensures Value(TableOf(Cleared(Applied(b, card, id, threshold), id, threshold), section), k)
         == Value(TableOf(Cleared(b, id, threshold), section), k)
  {
    hide Cleared, Undo, Recorded;
    var once := Applied(b, card, id, threshold);
    AppliedKeeps(b, card, id, threshold);
    AppliedTxns(b, card, id, threshold);
    ClearedSum(b, id, threshold, section, k);
    ClearedSum(once, id, threshold, section, k);
    TotalUpdate(b.txns, once.txns[id], section, k);
    assert Excess(once, section, k) == Excess(b, section, k);
  }

  lemma AppliedTxns(b: Book, card: Card, id: Id, threshold: Id -> int)
    requires Consistent(b, threshold) && id in b.txns
    ensures var a := Applied(b, card, id, threshold);
      id in a.txns && a.txns == b.txns[id := a.txns[id]] && a.txns[id].id == id && a.txns[id].context
          == b.txns[id].context
  {
  }

  lemma RecordedTxns(b: Book, c: Book, card: Card, id: Id, threshold: Id -> int)
    requires id in b.txns && id in c.txns && b.txns[id].context == c.txns[id].context
    requires forall k :: Value(b.caps, k) == Value(c.caps, k)
    requires c.txns == b.txns[id := c.txns[id]]
    requires c.txns[id] == b.txns[id].(record := c.txns[id].record, expected := c.txns[id].expected)
    ensures Recorded(b, card, id, threshold).txns == Recorded(c, card, id, threshold).txns
  {
    hide Compute, AddCaps, AddMilestones, AddFees, MilestoneEntries, FeeEntries, ToRecord;
    ComputeByValue(card, b.txns[id].context, b.caps, c.caps);
  }

  lemma ApplyTwiceTxns(b: Book, card: Card, id: Id, threshold: Id -> int)
    requires Consistent(b, threshold) && id in b.txns
    ensures var once := Applied(b, card, id, threshold);
      Applied(once, card, id, threshold).txns == once.txns
  {
    var once := Applied(b, card, id, threshold);
    var c, d := Cleared(b, id, threshold), Cleared(once, id, threshold);
    forall k
      ensures Value(c.caps, k) == Value(d.caps, k)
    {
      ClearedAgain(b, card, id, threshold, Caps, k);
    }
    assert c.txns == b.txns && d.txns == once.txns;
    RecordedTxns(c, d, card, id, threshold);
  }

  /** Applying a recorded transaction again counts it once: same record, same expected figures
      and the same counters. */
  lemma ApplyTwice(b: Book, card: Card, id: Id, threshold: Id -> int)
    requires Consistent(b, threshold) && id in b.txns
    ensures var once := Applied(b, card, id, threshold);
      var twice := Applied(once, card, id, threshold);
      && twice.txns == once.txns
      && forall section, k :: Value(TableOf(twice, section), k) == Value(TableOf(once, section), k)
  {
    hide Applied;
    var once := Applied(b, card, id, threshold);
    ApplyTwiceTxns(b, card, id, threshold);
    AppliedKeeps(b, card, id, threshold);
    AppliedTxns(b, card, id, threshold);
    AppliedKeeps(once, card, id, threshold);
    var twice := Applied(once, card, id, threshold);
    forall section, k
      ensures Value(TableOf(twice, section), k) == Value(TableOf(once, section), k)
    {
      assert Excess(twice, section, k) == Excess(once, section, k);
    }
  }
}
