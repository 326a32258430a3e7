/** After a rebuild every rebuilt row is the sum of the matching entries over all records. */
module CardAgreement {
  import opened Basics
  import opened CardRecords
  import opened CardModel
  import opened CardReplay
  import opened CardRange

  // ---- well-formed stores --------------------------------------------------------------------

  /** Anchors fixed, an entry names the window its transaction's day falls in. */
  ghost predicate DatedCap(card: Card, day: int, e: Entry) {
    e.id in card.caps ==>
      var w := card.windows.cap(e.id, day);
      w.start == e.start && w.end == e.end
  }

  ghost predicate DatedTxn(card: Card, t: Txn) {
    && InSpan(DayOf(t))
    && (t.record.Some? ==>
          && t.record.value.card == card.id
          && forall e :: e in t.record.value.caps ==> DatedCap(card, DayOf(t), e))
  }

  /** What a rebuild of `card` finds: ids are keys, and records belong to their transaction's card
      and are dated. The stored rows may be any. */
  ghost predicate GoodBook(b: Book, card: Card) {
    && (forall id :: id in b.txns ==> b.txns[id].id == id)
    && (forall id :: id in b.txns && b.txns[id].card == card.id ==> DatedTxn(card, b.txns[id]))
    && (forall id :: id in b.txns && b.txns[id].card != card.id && b.txns[id].record.Some? ==>
          b.txns[id].record.value.card != card.id)
  }

  /** A stored row that starts with one of the card's windows ends no earlier. Rows of the v1 path may
      end later, and they and rows of a moved period may start elsewhere. */
  ghost predicate StoredRowsDated(card: Card, rows: Table) {
    forall k :: k in rows && k.card == card.id && k.rule in card.caps ==>
      var w := card.windows.cap(k.rule, k.start);
      w.start == k.start ==> w.end <= rows[k].end
  }

  /** The rebuild's query finds the row stored at `k`, if there is one. */
  predicate Found(b: Book, range: Range, k: Key)
    requires range.caps.Some?
  {
    k in b.caps ==> b.caps[k].end >= range.caps.value.start
  }

  predicate InLoad(range: Range, day: int) {
    range.loadFrom.Some? && range.loadTo.Some? && range.loadFrom.value <= day <= range.loadTo.value
  }

  /** The load reaches every spend whose cap window meets the replay window. */
  ghost predicate LoadComplete(card: Card, range: Range, day: int) {
    range.caps.Some? ==>
      forall id :: id in card.caps && Meets(card.windows.cap(id, day), range.caps.value.start, range.caps.value.end)
        ==> InLoad(range, day)
  }

  ghost predicate LoadsAll(b: Book, card: Card, range: Range) {
    forall id :: id in b.txns && b.txns[id].card == card.id ==> LoadComplete(card, range, DayOf(b.txns[id]))
  }

  /** `rebuildRange` loads all of a card whose spends are not before the floor. */
  lemma RangeLoadsAll(b: Book, card: Card, req: Request)
    requires Sound(card) && GoodBook(b, card) && GoodRange(RangeOf(card, req))
    requires forall id :: id in b.txns && b.txns[id].card == card.id ==>
               req.floor.Some? ==> req.floor.value <= DayOf(b.txns[id])
    ensures LoadsAll(b, card, RangeOf(card, req))
  {
    forall id | id in b.txns && b.txns[id].card == card.id
      ensures LoadComplete(card, RangeOf(card, req), DayOf(b.txns[id]))
    {
      RangeComplete(card, req, DayOf(b.txns[id]));
    }
  }

  // ---- the replay's sums -----------------------------------------------------------------------

  lemma {:induction false} SeedRowsSum(card: Card, caps: CapRange, rows: Table, es: seq<Entry>)
    requires DatedRows(card, caps, rows)
    ensures var after := SeedRows(card, rows, es);
      && after.Keys == rows.Keys && DatedRows(card, caps, after)
      && forall k :: k in rows ==> after[k].value == rows[k].value + EntrySum(es, k.rule, k.start)
    decreases |es|
  {
    if es != [] {
      assert DatedRows(card, caps, SeedRow(card, rows, es[0]));
      SeedRowsSum(card, caps, SeedRow(card, rows, es[0]), es[1..]);
    }
  }

  /** New entries of a spend inside the replay window. */
  ghost predicate MovesDated(card: Card, day: int, moves: seq<Move>) {
    forall i :: 0 <= i < |moves| ==> moves[i].entry.id in card.caps && DatedCap(card, day, moves[i].entry)
  }

  lemma {:induction false} CapMovesDated(card: Card, caps: seq<AppliedCap>, deltas: map<Id, nat>, day: int)
    requires forall a :: a in caps ==> a.id in card.caps
    ensures MovesDated(card, day, CapMoves(card, caps, deltas, day))
    decreases |caps|
  {
    if caps != [] {
      CapMovesDated(card, caps[1..], deltas, day);
    }
  }

  lemma {:induction false} MoveRowsSum(card: Card, caps: CapRange, rows: Table, moves: seq<Move>, day: int)
    requires Tiled(card) && DatedRows(card, caps, rows) && MovesDated(card, day, moves)
    requires InSpan(day) && caps.start <= day <= caps.end
    ensures var after := MoveRows(card, rows, moves);
      && DatedRows(card, caps, after) && rows.Keys <= after.Keys
      && (forall k: Key :: k.card == card.id ==> Value(after, k) == Value(rows, k) + EntrySum(Entries(moves), k.rule,
          k.start))
      && (forall e :: e in Entries(moves) ==> KeyOf(card, e) in after)
    decreases |moves|
  {
    if moves != [] {
      var e, k := moves[0].entry, KeyOf(card, moves[0].entry);
      var row := if k in rows then AddToRow(card, rows[k], e, Some(moves[0].amount))
                 else Row(e.end, e.delta, CapMark(e.kind, Some(moves[0].amount), moves[0].approximate));
      assert TiledCap(card, e.id);
      assert DatedRow(card, caps, k, row);
      assert DatedRows(card, caps, rows[k := row]);
      MoveRowsSum(card, caps, rows[k := row], moves[1..], day);
      assert Entries(moves) == [e] + Entries(moves[1..]);
    }
  }

  lemma ReplayOneDated(card: Card, caps: CapRange, r: Replay, t: Txn, excluded: set<Id>)
    requires Sound(card) && DatedRows(card, caps, r.rows) && DatedTxn(card, t)
    ensures DatedRows(card, caps, ReplayOne(card, caps, r, t, excluded).rows)
    ensures r.rows.Keys <= ReplayOne(card, caps, r, t, excluded).rows.Keys
    ensures Within(caps, t) || ReplayOne(card, caps, r, t, excluded).rows.Keys == r.rows.Keys
    ensures Counts(t, excluded) && Within(caps, t) ==>
      var n := ReplayOne(card, caps, r, t, excluded);
      && (forall k: Key :: k.card == card.id ==> Value(n.rows, k) == Value(r.rows, k) + EntrySum(n.moved[t.id], k.rule,
          k.start))
      && (forall e :: e in n.moved[t.id] ==> KeyOf(card, e) in n.rows)
  {
    if Counts(t, excluded) {
      if Within(caps, t) {
        var plan := card.engine.plan(t.context);
        var priced := card.engine.price(t.context, ConsumedBefore(card, r.rows, plan.caps, DayOf(t)));
        CapMovesDated(card, plan.caps, priced.deltas, DayOf(t));
        MoveRowsSum(card, caps, r.rows, Compute(card, t.context, r.rows).moves, DayOf(t));
      } else {
        SeedRowsSum(card, caps, r.rows, EntriesOf(t.record, Caps));
      }
    }
  }

  lemma {:induction false} LateKeys(card: Card, caps: CapRange, r: Replay, ts: seq<Txn>, excluded: set<Id>)
    requires Sound(card) && DatedRows(card, caps, r.rows)
    requires forall t :: t in ts ==> DatedTxn(card, t) && DayOf(t) > caps.end
    ensures ReplayAll(card, caps, r, ts, excluded).rows.Keys == r.rows.Keys
    decreases |ts|
  {
    if ts != [] {
      ReplayOneDated(card, caps, r, ts[0], excluded);
      LateKeys(card, caps, ReplayOne(card, caps, r, ts[0], excluded), ts[1..], excluded);
    }
  }

  lemma {:induction false} MovedStable(card: Card, caps: CapRange, r: Replay, ts: seq<Txn>, excluded: set<Id>, id: Id)
    requires id !in Ids(ts)
    ensures var f := ReplayAll(card, caps, r, ts, excluded);
      && (id in f.moved <==> id in r.moved) && (id in r.moved ==> f.moved[id] == r.moved[id])
      && (id in f.figures <==> id in r.figures) && (id in r.figures ==> f.figures[id] == r.figures[id])
    decreases |ts|
  {
    if ts != [] {
      assert ts[0].id in Ids(ts);
      assert Ids(ts[1..]) <= Ids(ts);
      MovedStable(card, caps, ReplayOne(card, caps, r, ts[0], excluded), ts[1..], excluded, id);
    }
  }

  lemma TailIds(ts: seq<Txn>)
    requires ts != [] && DistinctIds(ts)
    ensures DistinctIds(ts[1..]) && ts[0].id !in Ids(ts[1..])
    ensures Ids(ts) == {ts[0].id} + Ids(ts[1..])
  {
  }

  /** What a transaction ends up contributing to the rebuilt row at `k`. */
  function Contribution(card: Card, caps: CapRange, final: Replay, excluded: set<Id>, t: Txn, k: Key): nat {
    if !Counts(t, excluded) then 0
    else if !Within(caps, t) then EntrySum(EntriesOf(t.record, Caps), k.rule, k.start)
    else if t.id in final.moved then EntrySum(final.moved[t.id], k.rule, k.start)
    else 0
  }

  function Contributions(card: Card, caps: CapRange, final: Replay, excluded: set<Id>, ts: seq<Txn>, k: Key): nat
    decreases |ts|
  {
    if ts == [] then 0
    else Contribution(card, caps, final, excluded, ts[0], k) + Contributions(card, caps, final, excluded, ts[1..], k)
  }

  /** A seed before the replay window that is not in a row being rebuilt lies in a period that
      ends before the window. */
  lemma EarlySeedMisses(card: Card, caps: CapRange, slots: Table, t: Txn, k: Key)
    requires Sound(card) && DatedTxn(card, t) && InSpan(caps.start) && caps.start <= caps.end
    requires forall id :: id in card.caps ==> Key(card.id, id, card.windows.cap(id, caps.start).start) in slots
    requires DayOf(t) < caps.start && k !in slots && k.card == card.id && k.rule in card.caps
    requires var w := card.windows.cap(k.rule, k.start); w.start == k.start && Meets(w, caps.start, caps.end)
    ensures EntrySum(EntriesOf(t.record, Caps), k.rule, k.start) == 0
  {
    assert TiledCap(card, k.rule);
    var w, v, first := card.windows.cap(k.rule, k.start), card.windows.cap(k.rule, DayOf(t)),
    card.windows.cap(k.rule, caps.start);
    assert k.rule !in card.lifetime ==> card.windows.cap(k.rule, v.start) == v;
    assert v.start == k.start ==> v == w == first;
    forall e | e in EntriesOf(t.record, Caps)
      ensures e.id == k.rule ==> e.start != k.start
    {
      assert DatedCap(card, DayOf(t), e);
    }
    EntrySumNone(EntriesOf(t.record, Caps), k.rule, k.start);
  }

  /** Every rebuilt row is the sum of the contributions of the replayed transactions and seeds. */
  lemma {:induction false} ReplaySum(card: Card, caps: CapRange, r: Replay, ts: seq<Txn>, excluded: set<Id>, k: Key)
    requires Sound(card) && InSpan(caps.start) && caps.start <= caps.end
    requires DatedRows(card, caps, r.rows) && Ordered(ts) && DistinctIds(ts)
    requires forall id :: id in card.caps ==> Key(card.id, id, card.windows.cap(id, caps.start).start) in r.rows
    requires forall t :: t in ts ==> DatedTxn(card, t)
    requires k in ReplayAll(card, caps, r, ts, excluded).rows
    ensures var f := ReplayAll(card, caps, r, ts, excluded);
      DatedRows(card, caps, f.rows)
      && f.rows[k].value == Value(r.rows, k) + Contributions(card, caps, f, excluded, ts, k)
    decreases |ts|
  {
    if ts != [] {
      var t, n, f := ts[0], ReplayOne(card, caps, r, ts[0], excluded), ReplayAll(card, caps, r, ts, excluded);
      ReplayOneDated(card, caps, r, t, excluded);
      TailIds(ts);
      ReplaySum(card, caps, n, ts[1..], excluded, k);
      MovedStable(card, caps, n, ts[1..], excluded, t.id);
      if Counts(t, excluded) && !Within(caps, t) {
        SeedRowsSum(card, caps, r.rows, EntriesOf(t.record, Caps));
        assert DatedRow(card, caps, k, f.rows[k]);
        if k !in r.rows && DayOf(t) < caps.start {
          EarlySeedMisses(card, caps, r.rows, t, k);
        } else if k !in r.rows {
          AfterLate(caps, ts);
          LateKeys(card, caps, n, ts[1..], excluded);
          assert false;
        }
      }
    }
  }

  lemma AfterLate(caps: CapRange, ts: seq<Txn>)
    requires Ordered(ts) && ts != [] && DayOf(ts[0]) > caps.end
    ensures forall u :: u in ts[1..] ==> DayOf(u) > caps.end
  {
  }

  // ---- totals over the store -----------------------------------------------------------------------

  function ListTotal(txns: map<Id, Txn>, ts: seq<Txn>, section: Section, k: Key): nat
    decreases |ts|
  {
    if ts == [] then 0
    else (if ts[0].id in txns then RecordSum(txns[ts[0].id].record, section, k) else 0)
         + ListTotal(txns, ts[1..], section, k)
  }

  /** When only the listed transactions matter, the total is the sum over the list. */
  lemma {:induction false} TotalOfList(txns: map<Id, Txn>, ts: seq<Txn>, section: Section, k: Key)
    requires DistinctIds(ts)
    requires forall id :: id in txns && id !in Ids(ts) ==> RecordSum(txns[id].record, section, k) == 0
    ensures Total(txns, section, k) == ListTotal(txns, ts, section, k)
    decreases |ts|
  {
    if ts == [] {
      TotalZero(txns, section, k);
    } else {
      TailIds(ts);
      var id, rest := ts[0].id, txns - {ts[0].id};
      TotalOfList(rest, ts[1..], section, k);
      if id in txns {
        TotalPick(txns, id, section, k);
      } else {
        assert rest == txns;
      }
      ListTotalSame(txns, rest, ts[1..], section, k);
    }
  }

  lemma {:induction false} ListTotalSame(a: map<Id, Txn>, b: map<Id, Txn>, ts: seq<Txn>, section: Section, k: Key)
    requires forall t :: t in ts ==> (t.id in a <==> t.id in b) && (t.id in a ==> a[t.id] == b[t.id])
    ensures ListTotal(a, ts, section, k) == ListTotal(b, ts, section, k)
    decreases |ts|
  {
    if ts != [] {
      ListTotalSame(a, b, ts[1..], section, k);
    }
  }

  // ---- what the plan writes ------------------------------------------------------------------------

  lemma {:induction false} RecordUpdatesAt(card: Card, range: Range, replay: Replay, slots: Table, ts: seq<Txn>,
                                           excluded: set<Id>)
    requires DistinctIds(ts)
    ensures var u := RecordUpdates(card, range, replay, slots, ts, excluded);
      && u.Keys <= Ids(ts)
      && forall t :: t in ts ==>
           var next := NextRecord(card, range, replay, slots, t, excluded);
           if t.id in excluded || Canonical(next) == Canonical(t.record) then t.id !in u
           else t.id in u && u[t.id] == next
    decreases |ts|
  {
    if ts != [] {
      TailIds(ts);
      RecordUpdatesAt(card, range, replay, slots, ts[1..], excluded);
      forall t | t in ts
        ensures t == ts[0] || (t in ts[1..] && t.id != ts[0].id)
      {
        if t != ts[0] {
          assert t in ts[1..];
          assert t.id in Ids(ts[1..]);
        }
      }
    }
  }

  lemma NextCapsSum(card: Card, range: Range, replay: Replay, t: Txn, excluded: set<Id>, k: Key)
    requires range.caps.Some? && k.card == card.id && k.rule in card.caps
    requires t.id !in excluded
    requires forall e :: e in EntriesOf(t.record, Caps) && e.id == k.rule && e.start == k.start
               ==> SupersededCap(card, range.caps.value, replay.rows, e)
    requires Counts(t, excluded) && Within(range.caps.value, t) ==> t.id in replay.moved
    requires !(Counts(t, excluded) && Within(range.caps.value, t)) ==> t.id !in replay.moved
    ensures EntrySum(NextCaps(card, range, replay, t, excluded), k.rule, k.start)
         == Contribution(card, range.caps.value, replay, excluded, t, k)
  {
    var stored, caps := EntriesOf(t.record, Caps), range.caps.value;
    var keep := e => !SupersededCap(card, caps, replay.rows, e);
    EntrySumKeep(stored, keep, k.rule, k.start);
    if Counts(t, excluded) && t.id in replay.moved {
      EntrySumConcat(Keep(stored, keep), replay.moved[t.id], k.rule, k.start);
    } else {
      assert Keep(stored, keep) + [] == Keep(stored, keep);
    }
  }

  /** The stored row at a rebuilt key ends with the rebuilt value. */
  lemma WrittenValue(table: Table, existing: Table, rows: Table, moved: set<Key>, k: Key)
    requires k in rows && rows[k].value >= 0 && k !in moved
    requires (k in table <==> k in existing) || (k !in existing && rows[k].value > 0)
    requires k in existing ==> k in table && existing[k] == table[k]
    ensures Value(Written(table, Positive(rows), Changed(rows, existing), moved + Emptied(rows, existing)), k)
            == rows[k].value
  {
  }

  /** Which transactions get new entries. */
  lemma {:induction false} MovedIds(card: Card, caps: CapRange, r: Replay, ts: seq<Txn>, excluded: set<Id>)
    requires DistinctIds(ts)
    ensures var f := ReplayAll(card, caps, r, ts, excluded);
      forall t :: t in ts ==>
        if Counts(t, excluded) && Within(caps, t) then t.id in f.moved && t.id in f.figures
        else (t.id in f.moved <==> t.id in r.moved) && (t.id in f.figures <==> t.id in r.figures)
    decreases |ts|
  {
    if ts != [] {
      TailIds(ts);
      var n := ReplayOne(card, caps, r, ts[0], excluded);
      MovedIds(card, caps, n, ts[1..], excluded);
      MovedStable(card, caps, n, ts[1..], excluded, ts[0].id);
      forall t | t in ts
        ensures t == ts[0] || (t in ts[1..] && t.id != ts[0].id)
      {
        if t != ts[0] {
          assert t in ts[1..];
          assert t.id in Ids(ts[1..]);
        }
      }
    }
  }

  // ---- agreement -----------------------------------------------------------------------------------

  /** The transactions a rebuild answers for: all but the excluded ones. */
  function Kept(b: Book, excluded: set<Id>): map<Id, Txn> { b.txns - excluded }

  /** The situation of a rebuild of `card`'s caps over the loaded transactions `ts`. */
  ghost predicate Rebuilding(b: Book, card: Card, range: Range, ts: seq<Txn>) {
    && Sound(card) && GoodBook(b, card) && LoadsAll(b, card, range) && GoodRange(range)
    && range.caps.Some?
    && Loads(b, card, range, ts)
  }

  lemma LoadedDistinct(b: Book, card: Card, range: Range, ts: seq<Txn>)
    requires Loads(b, card, range, ts)
    ensures DistinctIds(ts)
  {
  }

  /** The rows a rebuild makes of the card's cap counters. */
  function RowsOf(card: Card, range: Range, ts: seq<Txn>, excluded: set<Id>): Table {
    ReplayOf(card, range, ts, excluded).rows
  }

  lemma RowsDated(b: Book, card: Card, range: Range, ts: seq<Txn>, excluded: set<Id>, k: Key)
    requires Rebuilding(b, card, range, ts) && k in RowsOf(card, range, ts, excluded)
    ensures var f := ReplayOf(card, range, ts, excluded);
      && DatedRows(card, range.caps.value, f.rows)
      && f.rows[k].value == Contributions(card, range.caps.value, f, excluded, ts, k)
  {
    SlotsDated(card, range);
    LoadedDistinct(b, card, range, ts);
    ReplaySum(card, range.caps.value, Replay(Slots(card, range), map[], map[]), ts, excluded, k);
  }

  /** A transaction the rebuild does not load has no entry in a period that meets the window. */
  lemma UnloadedZero(b: Book, card: Card, range: Range, ts: seq<Txn>, k: Key, id: Id)
    requires Rebuilding(b, card, range, ts) && id in b.txns && id !in Ids(ts)
    requires k.card == card.id && k.rule in card.caps
    requires var w := card.windows.cap(k.rule, k.start);
      w.start == k.start && Meets(w, range.caps.value.start, range.caps.value.end)
    ensures RecordSum(b.txns[id].record, Caps, k) == 0
  {
    var t := b.txns[id];
    if t.card == card.id && t.record.Some? {
      var w, v := card.windows.cap(k.rule, k.start), card.windows.cap(k.rule, DayOf(t));
      assert TiledCap(card, k.rule);
      assert k.rule !in card.lifetime ==> card.windows.cap(k.rule, v.start) == v;
      assert v.start == k.start ==> v == w;
      assert t !in ts;
      forall e | e in t.record.value.caps
        ensures e.id == k.rule ==> e.start != k.start
      {
        assert DatedCap(card, DayOf(t), e);
      }
      EntrySumNone(t.record.value.caps, k.rule, k.start);
    }
  }

  /** What the rebuild leaves as a loaded transaction's record, up to order. */
  lemma RebuiltRecord(b: Book, card: Card, range: Range, expected: bool, ts: seq<Txn>, excluded: set<Id>, t: Txn)
    requires Loads(b, card, range, ts) && t in ts && t.id !in excluded
    ensures var next := NextRecord(card, range, ReplayOf(card, range, ts, excluded),
                                   MilestoneSlots(map[], card, range.milestones), t, excluded);
      && t.id in Rebuilt(b, card, range, expected, ts, excluded).txns
      && Canonical(Rebuilt(b, card, range, expected, ts, excluded).txns[t.id].record) == Canonical(next)
  {
    LoadedDistinct(b, card, range, ts);
    RecordUpdatesAt(card, range, ReplayOf(card, range, ts, excluded), MilestoneSlots(map[], card, range.milestones), ts,
                    excluded);
  }

  lemma RebuiltOther(b: Book, card: Card, range: Range, expected: bool, ts: seq<Txn>, excluded: set<Id>, id: Id)
    requires Loads(b, card, range, ts) && id in b.txns && id !in Ids(ts) && b.txns[id].id == id
    ensures var a := Rebuilt(b, card, range, expected, ts, excluded);
      id in a.txns && a.txns[id].record == b.txns[id].record
  {
    LoadedDistinct(b, card, range, ts);
    RecordUpdatesAt(card, range, ReplayOf(card, range, ts, excluded), MilestoneSlots(map[], card, range.milestones), ts,
                    excluded);
  }

  lemma ToRecordSum(card: Id, caps: seq<Entry>, milestones: seq<Entry>, fees: seq<Entry>, section: Section, k: Key)
    requires k.card == card
    ensures RecordSum(ToRecord(card, caps, milestones, fees), section, k)
         == EntrySum(match section case Caps => caps case Milestones => milestones case Fees => fees, k.rule, k.start)
  {
    EntrySumSort(caps, k.rule, k.start);
    EntrySumSort(milestones, k.rule, k.start);
    EntrySumSort(fees, k.rule, k.start);
  }

  /** A loaded transaction's record ends with exactly what the transaction contributed, at every
      key whose old entries the rebuild supersedes. */
  lemma RebuiltContribution(b: Book, card: Card, range: Range, expected: bool, ts: seq<Txn>, excluded: set<Id>, t: Txn,
                            k: Key)
    requires Rebuilding(b, card, range, ts) && t in ts && t.id !in excluded
    requires k.card == card.id && k.rule in card.caps
    requires var caps := range.caps.value;
      forall e :: e in EntriesOf(t.record, Caps) && e.id == k.rule && e.start == k.start
        ==> SupersededCap(card, caps, RowsOf(card, range, ts, excluded), e)
    ensures RecordSum(Rebuilt(b, card, range, expected, ts, excluded).txns[t.id].record, Caps, k)
      == Contribution(card, range.caps.value, ReplayOf(card, range, ts, excluded), excluded, t, k)
  {
    var f := ReplayOf(card, range, ts, excluded);
    var slots := MilestoneSlots(map[], card, range.milestones);
    LoadedDistinct(b, card, range, ts);
    MovedIds(card, range.caps.value, Replay(Slots(card, range), map[], map[]), ts, excluded);
    RebuiltRecord(b, card, range, expected, ts, excluded, t);
    var next := NextRecord(card, range, f, slots, t, excluded);
    CanonicalSum(next, Caps, k);
    CanonicalSum(Rebuilt(b, card, range, expected, ts, excluded).txns[t.id].record, Caps, k);
    NextCapsSum(card, range, f, t, excluded, k);
    ToRecordSum(card.id, NextCaps(card, range, f, t, excluded), NextMilestones(card, range, slots, t, excluded),
                EntriesOf(t.record, Fees), Caps, k);
  }

  lemma {:induction false} ListIsContributions(a: map<Id, Txn>, card: Card, caps: CapRange, f: Replay,
                                               excluded: set<Id>,
                                               ts: seq<Txn>, k: Key)
    requires forall t :: t in ts && t.id in excluded ==> t.id !in a
    requires forall t :: t in ts && t.id !in excluded ==>
               t.id in a && RecordSum(a[t.id].record, Caps, k) == Contribution(card, caps, f, excluded, t, k)
    ensures ListTotal(a, ts, Caps, k) == Contributions(card, caps, f, excluded, ts, k)
    decreases |ts|
  {
    if ts != [] {
      ListIsContributions(a, card, caps, f, excluded, ts[1..], k);
    }
  }

  /** An old entry at a key that meets the window is superseded. */
  lemma EntriesSuperseded(b: Book, card: Card, range: Range, ts: seq<Txn>, excluded: set<Id>, t: Txn, k: Key)
    requires Rebuilding(b, card, range, ts) && t in ts && k.card == card.id && k.rule in card.caps
    requires var w, caps := card.windows.cap(k.rule, k.start), range.caps.value;
      w.start == k.start && Meets(w, caps.start, caps.end)
    ensures forall e :: e in EntriesOf(t.record, Caps) && e.id == k.rule && e.start == k.start
              ==> SupersededCap(card, range.caps.value, RowsOf(card, range, ts, excluded), e)
  {
  }

  lemma RebuiltIds(b: Book, card: Card, range: Range, expected: bool, ts: seq<Txn>, excluded: set<Id>)
    requires GoodBook(b, card)
    ensures var a := Rebuilt(b, card, range, expected, ts, excluded);
      a.txns.Keys == b.txns.Keys && forall id :: id in b.txns ==> b.txns[id].id == id
  {
  }

  /** At a key that meets the window, the records of the rebuilt store sum to the contributions. */
  lemma RebuiltTotal(b: Book, card: Card, range: Range, expected: bool, ts: seq<Txn>, excluded: set<Id>, k: Key)
    requires Rebuilding(b, card, range, ts) && k.card == card.id && k.rule in card.caps
    requires var w, caps := card.windows.cap(k.rule, k.start), range.caps.value;
      w.start == k.start && Meets(w, caps.start, caps.end)
    ensures Total(Kept(Rebuilt(b, card, range, expected, ts, excluded), excluded), Caps, k)
      == Contributions(card, range.caps.value, ReplayOf(card, range, ts, excluded), excluded, ts, k)
  {
    var caps, f := range.caps.value, ReplayOf(card, range, ts, excluded);
    var a := Rebuilt(b, card, range, expected, ts, excluded);
    LoadedDistinct(b, card, range, ts);
    RebuiltIds(b, card, range, expected, ts, excluded);
    hide Rebuilt, ReplayOf, SupersededCap, Contribution, NextRecord, MilestoneSlots, Loads, GoodBook, LoadsAll,
    TiledCap;
    forall t | t in ts && t.id !in excluded
      ensures t.id in Kept(a, excluded)
      ensures RecordSum(a.txns[t.id].record, Caps, k) == Contribution(card, caps, f, excluded, t, k)
    {
      RebuiltRecord(b, card, range, expected, ts, excluded, t);
      EntriesSuperseded(b, card, range, ts, excluded, t, k);
      RebuiltContribution(b, card, range, expected, ts, excluded, t, k);
    }
    forall id | id in Kept(a, excluded) && id !in Ids(ts)
      ensures RecordSum(Kept(a, excluded)[id].record, Caps, k) == 0
    {
      RebuiltOther(b, card, range, expected, ts, excluded, id);
      UnloadedZero(b, card, range, ts, k, id);
    }
    ListIsContributions(Kept(a, excluded), card, caps, f, excluded, ts, k);
    TotalOfList(Kept(a, excluded), ts, Caps, k);
  }

  /** What a rebuild leaves at a row it made. */
  lemma BuiltValue(b: Book, card: Card, range: Range, expected: bool, ts: seq<Txn>, excluded: set<Id>, k: Key)
    requires range.caps.Some? && k in RowsOf(card, range, ts, excluded) && k.card == card.id
    requires k.start <= range.caps.value.end && RowsOf(card, range, ts, excluded)[k].value >= 0
    ensures Value(Rebuilt(b, card, range, expected, ts, excluded).caps, k)
         == if Found(b, range, k) || RowsOf(card, range, ts, excluded)[k].value > 0
            then RowsOf(card, range, ts, excluded)[k].value else Value(b.caps, k)
  {
    hide ReplayOf, MilestoneReplay, MilestoneSlots, RecordUpdates, ExpectedUpdates;
    var rows, existing := RowsOf(card, range, ts, excluded), ExistingCaps(b, card, range);
    assert Rebuilt(b, card, range, expected, ts, excluded).caps
        == Written(b.caps, Positive(rows), Changed(rows, existing),
                   Moved(card, range, rows, existing) + Emptied(rows, existing));
    assert k in b.caps && Found(b, range, k) <==> k in existing;
    hide Rebuilt, ExistingCaps, Found;
    if k in existing || rows[k].value > 0 {
      WrittenValue(b.caps, existing, rows, Moved(card, range, rows, existing), k);
    }
  }

  /** Rebuild agreement: a rebuilt cap row is the sum of the matching entries over the final
      records, seeds counted through stored entries, replayed spends through new ones, and rows
      that no longer count through none. Only a stored row that ends before the replay window,
      which the rebuild does not see, can stay where the rebuilt row is empty. */
  lemma CapAgreesIff(b: Book, card: Card, range: Range, expected: bool, ts: seq<Txn>, excluded: set<Id>, k: Key)
    requires Rebuilding(b, card, range, ts) && k in RowsOf(card, range, ts, excluded)
    ensures var a := Rebuilt(b, card, range, expected, ts, excluded);
      Value(a.caps, k) == Total(Kept(a, excluded), Caps, k)
      <==> Found(b, range, k) || RowsOf(card, range, ts, excluded)[k].value > 0 || Value(b.caps, k) == 0
  {
    RowsDated(b, card, range, ts, excluded, k);
    assert DatedRow(card, range.caps.value, k, RowsOf(card, range, ts, excluded)[k]);
    hide Rebuilding, Rebuilt, ReplayOf, Total, Kept, Contributions, DatedRows, Found;
    RebuiltTotal(b, card, range, expected, ts, excluded, k);
    BuiltValue(b, card, range, expected, ts, excluded, k);
  }

  lemma DatedFound(b: Book, card: Card, range: Range, k: Key)
    requires range.caps.Some? && StoredRowsDated(card, b.caps) && Overlapping(card, range, k)
    ensures Found(b, range, k)
  {
  }

  lemma RebuiltOverlaps(b: Book, card: Card, range: Range, ts: seq<Txn>, excluded: set<Id>, k: Key)
    requires Rebuilding(b, card, range, ts) && k in RowsOf(card, range, ts, excluded)
    ensures range.caps.Some? && Overlapping(card, range, k)
  {
    RowsDated(b, card, range, ts, excluded, k);
    assert DatedRow(card, range.caps.value, k, RowsOf(card, range, ts, excluded)[k]);
  }

  /** So with the card's dates and terms unchanged every rebuilt row agrees. */
  lemma CapAgreement(b: Book, card: Card, range: Range, expected: bool, ts: seq<Txn>, excluded: set<Id>, k: Key)
    requires Rebuilding(b, card, range, ts) && StoredRowsDated(card, b.caps) && k in RowsOf(card, range, ts, excluded)
    ensures var a := Rebuilt(b, card, range, expected, ts, excluded);
      Value(a.caps, k) == Total(Kept(a, excluded), Caps, k)
  {
    hide Rebuilding, Rebuilt, RowsOf, Total;
    RebuiltOverlaps(b, card, range, ts, excluded, k);
    DatedFound(b, card, range, k);
    CapAgreesIff(b, card, range, expected, ts, excluded, k);
  }

  // ---- exactly when the whole overlap agrees -----------------------------------------------------------

  /** The card's periods that meet the replay window. */
  ghost predicate Overlapping(card: Card, range: Range, k: Key)
    requires range.caps.Some?
  {
    && k.card == card.id && k.rule in card.caps
    && var w := card.windows.cap(k.rule, k.start);
       w.start == k.start && Meets(w, range.caps.value.start, range.caps.value.end)
  }

  // ---- the rows that are built ---------------------------------------------------------------------

  lemma {:induction false} MoveRowsKeys(card: Card, rows: Table, moves: seq<Move>)
    ensures forall k :: k in MoveRows(card, rows, moves) <==>
                        k in rows || exists e :: e in Entries(moves) && KeyOf(card, e) == k
    decreases |moves|
  {
    if moves != [] {
      var e, k := moves[0].entry, KeyOf(card, moves[0].entry);
      var row := if k in rows then AddToRow(card, rows[k], e, Some(moves[0].amount))
                 else Row(e.end, e.delta, CapMark(e.kind, Some(moves[0].amount), moves[0].approximate));
      MoveRowsKeys(card, rows[k := row], moves[1..]);
      assert Entries(moves) == [e] + Entries(moves[1..]);
    }
  }

  lemma {:induction false} SeedRowsKeys(card: Card, rows: Table, es: seq<Entry>)
    ensures SeedRows(card, rows, es).Keys == rows.Keys
    decreases |es|
  {
    if es != [] {
      SeedRowsKeys(card, SeedRow(card, rows, es[0]), es[1..]);
    }
  }

  /** A replayed spend counts into the period at `k`. */
  ghost predicate CountsInto(card: Card, r: Replay, k: Key) {
    exists id, e :: id in r.moved && e in r.moved[id] && KeyOf(card, e) == k
  }

  ghost predicate BuiltFrom(card: Card, slots: Table, r: Replay) {
    forall k :: k in r.rows <==> k in slots || CountsInto(card, r, k)
  }

  lemma ReplayOneBuilt(card: Card, caps: CapRange, slots: Table, r: Replay, t: Txn, excluded: set<Id>)
    requires BuiltFrom(card, slots, r) && t.id !in r.moved
    ensures BuiltFrom(card, slots, ReplayOne(card, caps, r, t, excluded))
  {
    var n, out := ReplayOne(card, caps, r, t, excluded), Compute(card, t.context, r.rows);
    hide Compute;
    SeedRowsKeys(card, r.rows, EntriesOf(t.record, Caps));
    MoveRowsKeys(card, r.rows, out.moves);
    if Counts(t, excluded) && Within(caps, t) {
      assert n.moved == r.moved[t.id := Entries(out.moves)];
      forall k
        ensures CountsInto(card, n, k) <==>
                CountsInto(card, r, k) || exists e :: e in Entries(out.moves) && KeyOf(card, e) == k
      {
        if CountsInto(card, r, k) {
          var id, e :| id in r.moved && e in r.moved[id] && KeyOf(card, e) == k;
          assert id in n.moved && e in n.moved[id];
        }
        if e :| e in Entries(out.moves) && KeyOf(card, e) == k {
          assert t.id in n.moved && e in n.moved[t.id];
        }
      }
    }
  }

  lemma {:induction false} ReplayBuilt(card: Card, caps: CapRange, slots: Table, r: Replay, ts: seq<Txn>,
                                       excluded: set<Id>)
    requires BuiltFrom(card, slots, r) && DistinctIds(ts) && forall t :: t in ts ==> t.id !in r.moved
    ensures BuiltFrom(card, slots, ReplayAll(card, caps, r, ts, excluded))
    decreases |ts|
  {
    if ts != [] {
      TailIds(ts);
      var n := ReplayOne(card, caps, r, ts[0], excluded);
      ReplayOneBuilt(card, caps, slots, r, ts[0], excluded);
      forall t | t in ts[1..]
        ensures t.id !in n.moved
      {
        assert t.id in Ids(ts[1..]);
      }
      hide ReplayOne, BuiltFrom;
      ReplayBuilt(card, caps, slots, n, ts[1..], excluded);
    }
  }

  /** A rebuild has a row exactly for the enumerated periods and those a replayed spend counts into. */
  lemma RowsBuiltIff(card: Card, range: Range, ts: seq<Txn>, excluded: set<Id>, k: Key)
    requires range.caps.Some? && DistinctIds(ts)
    ensures k in RowsOf(card, range, ts, excluded) <==>
            k in Slots(card, range) || CountsInto(card, ReplayOf(card, range, ts, excluded), k)
  {
    var slots := Slots(card, range);
    hide Slots;
    ReplayBuilt(card, range.caps.value, slots, Replay(slots, map[], map[]), ts, excluded);
  }

  /** A counting spend after the replay window has a positive entry at `k`, a period that is neither
      enumerated nor one a replayed spend counts into. */
  ghost predicate SeedDropped(card: Card, range: Range, ts: seq<Txn>, excluded: set<Id>, k: Key)
    requires range.caps.Some?
  {
    && k !in Slots(card, range) && !CountsInto(card, ReplayOf(card, range, ts, excluded), k)
    && exists t :: t in ts && Counts(t, excluded) && DayOf(t) > range.caps.value.end
                   && EntrySum(EntriesOf(t.record, Caps), k.rule, k.start) > 0
  }

  lemma UnbuiltValue(b: Book, card: Card, range: Range, expected: bool, ts: seq<Txn>, excluded: set<Id>, k: Key)
    requires Rebuilding(b, card, range, ts) && Overlapping(card, range, k) && k !in RowsOf(card, range, ts, excluded)
    ensures Value(Rebuilt(b, card, range, expected, ts, excluded).caps, k) == if Found(b, range, k) then 0
    else Value(b.caps, k)
  {
  }

  /** The entries of replayed spends all have a row. */
  lemma {:induction false} MovedHaveRows(card: Card, caps: CapRange, r: Replay, ts: seq<Txn>, excluded: set<Id>)
    requires Sound(card) && DatedRows(card, caps, r.rows) && DistinctIds(ts)
    requires forall t :: t in ts ==> DatedTxn(card, t)
    ensures var f := ReplayAll(card, caps, r, ts, excluded);
      && r.rows.Keys <= f.rows.Keys
      && forall t, e :: t in ts && Counts(t, excluded) && Within(caps, t) && t.id in f.moved && e in f.moved[t.id]
           ==> KeyOf(card, e) in f.rows
    decreases |ts|
  {
    if ts != [] {
      TailIds(ts);
      var n := ReplayOne(card, caps, r, ts[0], excluded);
      ReplayOneDated(card, caps, r, ts[0], excluded);
      MovedHaveRows(card, caps, n, ts[1..], excluded);
      MovedStable(card, caps, n, ts[1..], excluded, ts[0].id);
      var f := ReplayAll(card, caps, r, ts, excluded);
      forall t, e | t in ts && Counts(t, excluded) && Within(caps, t) && t.id in f.moved && e in f.moved[t.id]
        ensures KeyOf(card, e) in f.rows
      {
        if t != ts[0] {
          assert t in ts[1..];
        }
      }
    }
  }

  /** What a counting spend after the replay window has recorded at `k`. */
  function LateEntry(caps: CapRange, t: Txn, excluded: set<Id>, k: Key): nat {
    if Counts(t, excluded) && DayOf(t) > caps.end then EntrySum(EntriesOf(t.record, Caps), k.rule, k.start) else 0
  }

  lemma UnbuiltContribution(b: Book, card: Card, range: Range, ts: seq<Txn>, excluded: set<Id>, t: Txn, k: Key)
    requires Rebuilding(b, card, range, ts) && Overlapping(card, range, k) && k !in RowsOf(card, range, ts, excluded)
    requires t in ts
    ensures Contribution(card, range.caps.value, ReplayOf(card, range, ts, excluded), excluded, t, k)
         == LateEntry(range.caps.value, t, excluded, k)
  {
    var caps, f := range.caps.value, ReplayOf(card, range, ts, excluded);
    SlotsDated(card, range);
    LoadedDistinct(b, card, range, ts);
    MovedHaveRows(card, caps, Replay(Slots(card, range), map[], map[]), ts, excluded);
    if Counts(t, excluded) {
      if DayOf(t) < caps.start {
        EarlySeedMisses(card, caps, Slots(card, range), t, k);
      } else if Within(caps, t) && t.id in f.moved {
        forall e | e in f.moved[t.id]
          ensures !(e.id == k.rule && e.start == k.start)
        {
          assert KeyOf(card, e) in f.rows;
        }
        EntrySumNone(f.moved[t.id], k.rule, k.start);
      }
    }
  }

  lemma {:induction false} ContributionsZero(card: Card, caps: CapRange, f: Replay, excluded: set<Id>, ts: seq<Txn>,
                                             k: Key)
    ensures Contributions(card, caps, f, excluded, ts, k) == 0
       <==> forall t :: t in ts ==> Contribution(card, caps, f, excluded, t, k) == 0
    decreases |ts|
  {
    if ts != [] {
      ContributionsZero(card, caps, f, excluded, ts[1..], k);
      assert forall t :: t in ts <==> t == ts[0] || t in ts[1..];
    }
  }

  /** Outside the rebuilt rows the agreement is not automatic: a stored row of an overlapping
      period is deleted, while a later spend may keep its entry there. An overlapping period
      agrees exactly when no spend was dropped so. */
  lemma OverlapAgreesIff(b: Book, card: Card, range: Range, expected: bool, ts: seq<Txn>, excluded: set<Id>, k: Key)
    requires Rebuilding(b, card, range, ts) && Overlapping(card, range, k) && Found(b, range, k)
    ensures var a := Rebuilt(b, card, range, expected, ts, excluded);
      Value(a.caps, k) == Total(Kept(a, excluded), Caps, k) <==> !SeedDropped(card, range, ts, excluded, k)
  {
    var caps, f := range.caps.value, ReplayOf(card, range, ts, excluded);
    LoadedDistinct(b, card, range, ts);
    RowsBuiltIff(card, range, ts, excluded, k);
    hide CountsInto, Slots;
    if k in RowsOf(card, range, ts, excluded) {
      CapAgreesIff(b, card, range, expected, ts, excluded, k);
    } else {
      UnbuiltValue(b, card, range, expected, ts, excluded, k);
      RebuiltTotal(b, card, range, expected, ts, excluded, k);
      ContributionsZero(card, caps, f, excluded, ts, k);
      forall t | t in ts
        ensures Contribution(card, caps, f, excluded, t, k)
             == LateEntry(caps, t, excluded, k)
      {
        UnbuiltContribution(b, card, range, ts, excluded, t, k);
      }
    }
  }

  function LateSum(caps: CapRange, ts: seq<Txn>, excluded: set<Id>, k: Key): nat
    decreases |ts|
  {
    if ts == [] then 0
    else LateEntry(caps, ts[0], excluded, k) + LateSum(caps, ts[1..], excluded, k)
  }

  lemma {:induction false} ContributionsLate(card: Card, caps: CapRange, f: Replay, excluded: set<Id>, ts: seq<Txn>,
                                             k: Key)
    requires forall t :: t in ts ==> Contribution(card, caps, f, excluded, t, k) == LateEntry(caps, t, excluded, k)
    ensures Contributions(card, caps, f, excluded, ts, k) == LateSum(caps, ts, excluded, k)
    decreases |ts|
  {
    if ts != [] {
      ContributionsLate(card, caps, f, excluded, ts[1..], k);
    }
  }

  /** A rebuilt row that counts nothing has no late entry either. */
  lemma {:induction false} LateBelow(card: Card, caps: CapRange, f: Replay, excluded: set<Id>, ts: seq<Txn>, k: Key)
    ensures LateSum(caps, ts, excluded, k) <= Contributions(card, caps, f, excluded, ts, k)
    decreases |ts|
  {
    if ts != [] {
      LateBelow(card, caps, f, excluded, ts[1..], k);
    }
  }

  /** What the records of the rebuilt store sum to where no row was built. */
  lemma UnbuiltTotal(b: Book, card: Card, range: Range, expected: bool, ts: seq<Txn>, excluded: set<Id>, k: Key)
    requires Rebuilding(b, card, range, ts) && Overlapping(card, range, k) && k !in RowsOf(card, range, ts, excluded)
    ensures Total(Kept(Rebuilt(b, card, range, expected, ts, excluded), excluded), Caps, k)
         == LateSum(range.caps.value, ts, excluded, k)
  {
    var caps, f := range.caps.value, ReplayOf(card, range, ts, excluded);
    hide Rebuilt, ReplayOf, Total, Kept, Contribution, LateEntry, Found;
    RebuiltTotal(b, card, range, expected, ts, excluded, k);
    forall t | t in ts
      ensures Contribution(card, caps, f, excluded, t, k) == LateEntry(caps, t, excluded, k)
    {
      UnbuiltContribution(b, card, range, ts, excluded, t, k);
    }
    ContributionsLate(card, caps, f, excluded, ts, k);
  }

  /** A stored row the rebuild does not see is replaced where the rebuilt row counts something, and
      stays otherwise: it then agrees exactly when it holds what later spends have recorded there. */
  lemma UnfoundAgreesIff(b: Book, card: Card, range: Range, expected: bool, ts: seq<Txn>, excluded: set<Id>, k: Key)
    requires Rebuilding(b, card, range, ts) && Overlapping(card, range, k) && !Found(b, range, k)
    ensures var a, rows := Rebuilt(b, card, range, expected, ts, excluded), RowsOf(card, range, ts, excluded);
      Value(a.caps, k) == Total(Kept(a, excluded), Caps, k)
      <==> (k in rows && rows[k].value > 0) || Value(b.caps, k) == LateSum(range.caps.value, ts, excluded, k)
  {
    var caps := range.caps.value;
    hide Rebuilt, ReplayOf, Total, Kept, Contributions, Rebuilding, Overlapping, Found;
    if k in RowsOf(card, range, ts, excluded) {
      CapAgreesIff(b, card, range, expected, ts, excluded, k);
      RowsDated(b, card, range, ts, excluded, k);
      LateBelow(card, caps, ReplayOf(card, range, ts, excluded), excluded, ts, k);
    } else {
      UnbuiltValue(b, card, range, expected, ts, excluded, k);
      UnbuiltTotal(b, card, range, expected, ts, excluded, k);
    }
  }
}
