/** The documented invariant over whole runs: with rebuilds interleaved every counter is the sum of its
    record entries, save for what deferred failures and rows of the v1 path leave on it. */
module CardSums {
  import opened Basics
  import opened CardRecords
  import opened CardModel
  import opened CardLive
  import opened CardReplay
  import opened CardRange
  import opened CardAgreement
  import opened CardMilestones
  import opened CardIdempotent
  import opened CardRefinement
  import opened FeeWaivers
  import opened CardStore
  import opened CardRuns

  /** How far a counter is above the sum over all transactions but `excluded`. */
  ghost function ExcessBut(b: Book, excluded: set<Id>, section: Section, k: Key): int {
    Value(TableOf(b, section), k) - Total(Kept(b, excluded), section, k)
  }

  lemma NoneExcluded(b: Book, section: Section, k: Key)
    ensures ExcessBut(b, {}, section, k) == Excess(b, section, k)
  {
    assert Kept(b, {}) == b.txns;
  }

  // ---- what a rebuild leaves alone -----------------------------------------------------------------

  lemma KeptCapsSum(card: Card, range: Range, f: Replay, t: Txn, excluded: set<Id>, k: Key)
    requires MovedInRows(card, f) && k.card == card.id && k !in f.rows
    requires range.caps.Some? ==>
               forall e :: e in EntriesOf(t.record, Caps) && e.id == k.rule && e.start == k.start
                 ==> !SupersededCap(card, range.caps.value, f.rows, e)
    ensures EntrySum(NextCaps(card, range, f, t, excluded), k.rule, k.start) == EntrySum(EntriesOf(t.record, Caps),
        k.rule, k.start)
  {
    var stored := EntriesOf(t.record, Caps);
    if range.caps.Some? {
      var keep := e => !SupersededCap(card, range.caps.value, f.rows, e);
      EntrySumKeep(stored, keep, k.rule, k.start);
      if Counts(t, excluded) && t.id in f.moved {
        forall e | e in f.moved[t.id]
          ensures !(e.id == k.rule && e.start == k.start)
        {
          assert KeyOf(card, e) in f.rows;
        }
        EntrySumNone(f.moved[t.id], k.rule, k.start);
        EntrySumConcat(Keep(stored, keep), f.moved[t.id], k.rule, k.start);
      } else {
        assert Keep(stored, keep) + [] == Keep(stored, keep);
      }
    }
  }

  lemma KeptMilestonesSum(card: Card, range: Range, slots: Table, t: Txn, excluded: set<Id>, k: Key)
    requires k.card == card.id && k !in slots
    requires forall e :: e in EntriesOf(t.record, Milestones) && e.id == k.rule && e.start == k.start
               ==> !SupersededMilestone(card, range.milestones, slots, e)
    ensures EntrySum(NextMilestones(card, range, slots, t, excluded), k.rule, k.start)
         == EntrySum(EntriesOf(t.record, Milestones), k.rule, k.start)
  {
    var stored := EntriesOf(t.record, Milestones);
    var keep := e => !SupersededMilestone(card, range.milestones, slots, e);
    EntrySumKeep(stored, keep, k.rule, k.start);
    var more := if Counts(t, excluded) then NewMilestones(card, slots, t.context) else [];
    EntrySumNone(more, k.rule, k.start);
    EntrySumConcat(Keep(stored, keep), more, k.rule, k.start);
  }

  /** The entries at `k` are not the rebuild's business. */
  ghost predicate LeftAloneAt(card: Card, range: Range, ts: seq<Txn>, excluded: set<Id>, section: Section, k: Key) {
    match section
    case Caps =>
      var rows := ReplayOf(card, range, ts, excluded).rows;
      && k !in rows
      && (range.caps.Some? ==>
            forall t, e :: t in ts && e in EntriesOf(t.record, Caps) && e.id == k.rule && e.start == k.start
              ==> !SupersededCap(card, range.caps.value, rows, e))
    case Milestones =>
      var slots := MilestoneSlots(map[], card, range.milestones);
      && k !in slots
      && (forall t, e :: t in ts && e in EntriesOf(t.record, Milestones) && e.id == k.rule && e.start == k.start
            ==> !SupersededMilestone(card, range.milestones, slots, e))
    case Fees => true
  }

  lemma NextRecordSum(card: Card, range: Range, ts: seq<Txn>, excluded: set<Id>, t: Txn, section: Section, k: Key)
    requires t in ts && k.card == card.id && LeftAloneAt(card, range, ts, excluded, section, k)
    requires t.record.Some? ==> t.record.value.card == card.id
    ensures var f, slots := ReplayOf(card, range, ts, excluded), MilestoneSlots(map[], card, range.milestones);
      RecordSum(NextRecord(card, range, f, slots, t, excluded), section, k) == RecordSum(t.record, section, k)
  {
    var f, slots := ReplayOf(card, range, ts, excluded), MilestoneSlots(map[], card, range.milestones);
    FinalMovedInRows(card, range, ts, excluded);
    hide ReplayOf, MilestoneSlots, MovedInRows, NextCaps, NextMilestones, SupersededCap, SupersededMilestone;
    ToRecordSum(card.id, NextCaps(card, range, f, t, excluded), NextMilestones(card, range, slots, t, excluded),
                EntriesOf(t.record, Fees), section, k);
    match section {
      case Caps => KeptCapsSum(card, range, f, t, excluded, k);
      case Milestones => KeptMilestonesSum(card, range, slots, t, excluded, k);
      case Fees =>
    }
  }

  /** A sum at a key of another card, or at one that is left alone, stays. */
  lemma SumStays(b: Book, card: Card, range: Range, expected: bool, ts: seq<Txn>, excluded: set<Id>, section: Section,
                 k: Key)
    requires GoodBook(b, card) && Loads(b, card, range, ts)
    requires k.card == card.id ==> LeftAloneAt(card, range, ts, excluded, section, k)
    ensures var a := Rebuilt(b, card, range, expected, ts, excluded);
      Total(Kept(a, excluded), section, k) == Total(Kept(b, excluded), section, k)
  {
    var a := Rebuilt(b, card, range, expected, ts, excluded);
    var f, slots := ReplayOf(card, range, ts, excluded), MilestoneSlots(map[], card, range.milestones);
    RebuiltIds(b, card, range, expected, ts, excluded);
    forall id | id in Kept(b, excluded)
      ensures RecordSum(a.txns[id].record, section, k) == RecordSum(b.txns[id].record, section, k)
    {
      hide ReplayOf, MilestoneSlots, Rebuilt, NextRecord, LeftAloneAt, Canonical, DatedCap;
      var t := b.txns[id];
      if t in ts {
        assert DatedTxn(card, t) && t.card == card.id;
        RebuiltRecord(b, card, range, expected, ts, excluded, t);
        var next := NextRecord(card, range, f, slots, t, excluded);
        CanonicalSum(next, section, k);
        CanonicalSum(a.txns[id].record, section, k);
        if k.card == card.id {
          NextRecordSum(card, range, ts, excluded, t, section, k);
        } else {
          NextRecordCard(card, range, f, slots, t, excluded);
        }
      } else {
        assert id !in Ids(ts);
        RebuiltOther(b, card, range, expected, ts, excluded, id);
      }
    }
    TotalSame(Kept(a, excluded), Kept(b, excluded), section, k);
  }

  lemma NextRecordCard(card: Card, range: Range, f: Replay, slots: Table, t: Txn, excluded: set<Id>)
    ensures var next := NextRecord(card, range, f, slots, t, excluded); next.Some? ==> next.value.card == card.id
  {
  }

  lemma WrittenElsewhere(table: Table, rows: Table, changed: set<Key>, deletes: set<Key>, k: Key)
    requires k !in rows
    ensures Value(Written(table, Positive(rows), changed, deletes), k) == if k in deletes then 0 else Value(table, k)
  {
  }

  // ---- cap counters --------------------------------------------------------------------------------

  /** No rebuilt store keeps an entry of a later spend where its row was deleted. */
  ghost predicate DropsNoSeed(card: Card, range: Range, ts: seq<Txn>, excluded: set<Id>) {
    range.caps.Some? ==> forall k :: Overlapping(card, range, k) ==> !SeedDropped(card, range, ts, excluded, k)
  }

  /** A rebuild as of a day that no counting spend of the card comes after drops nothing: the replay
      window reaches that day. */
  lemma LatestDropsNothing(b: Book, card: Card, req: Request, ts: seq<Txn>, excluded: set<Id>)
    requires Loads(b, card, RangeOf(card, req), ts)
    requires forall id :: id in b.txns && b.txns[id].card == card.id && Counts(b.txns[id], excluded) ==>
               DayOf(b.txns[id]) <= req.asOf
    ensures DropsNoSeed(card, RangeOf(card, req), ts, excluded)
  {
    LatestEndBound(card, card.caps, req.asOf, req.asOf, false);
    assert forall t :: t in ts ==> t.id in b.txns && b.txns[t.id] == t && t.card == card.id;
  }

  /** A cap row that starts with a window of its rule ends with it. */
  ghost predicate EndsWithCap(card: Card, k: Key, row: Row) {
    k.card == card.id && k.rule in card.caps ==>
      var w := card.windows.cap(k.rule, k.start);
      w.start == k.start ==> w.end == row.end
  }

  /** The situation of a rebuild in a run. */
  ghost predicate GoodRebuild(b: Book, card: Card, range: Range, ts: seq<Txn>) {
    && Sound(card) && TiledMilestones(card) && GoodBook(b, card) && GoodRange(range) && Loads(b, card, range, ts)
    && StoredRowsDated(card, b.caps) && (forall k :: k in b.caps ==> EndsWithCap(card, k, b.caps[k]))
    && GoodSpans(card, range) && GoodMilestones(b, card, range)
    && (range.caps.Some? ==> Rebuilding(b, card, range, ts)) && Rebuildable(b, card, range, ts)
  }

  lemma NoEntryOffWindows(b: Book, card: Card, excluded: set<Id>, k: Key)
    requires Sound(card) && GoodBook(b, card) && k.card == card.id && k.rule in card.caps
    requires card.windows.cap(k.rule, k.start).start != k.start
    ensures Total(Kept(b, excluded), Caps, k) == 0
  {
    assert TiledCap(card, k.rule);
    forall id, e | id in b.txns && b.txns[id].card == card.id && e in EntriesOf(b.txns[id].record, Caps)
    && e.id == k.rule
      ensures e.start != k.start
    {
      var t := b.txns[id];
      assert DatedTxn(card, t) && DatedCap(card, DayOf(t), e);
      var w := card.windows.cap(e.id, DayOf(t));
      assert k.rule !in card.lifetime ==> card.windows.cap(k.rule, w.start) == w;
    }
    forall id | id in Kept(b, excluded)
      ensures RecordSum(b.txns[id].record, Caps, k) == 0
    {
      if b.txns[id].card == card.id {
        EntrySumNone(EntriesOf(b.txns[id].record, Caps), k.rule, k.start);
      }
    }
    TotalZero(Kept(b, excluded), Caps, k);
  }

  /** A period of the card away from the replay window: its entries are not superseded. */
  lemma AwayLeftAlone(b: Book, card: Card, range: Range, ts: seq<Txn>, excluded: set<Id>, k: Key)
    requires GoodRebuild(b, card, range, ts) && range.caps.Some? && k.card == card.id && !Overlapping(card, range, k)
    ensures LeftAloneAt(card, range, ts, excluded, Caps, k)
    ensures (k.rule in card.caps ==> card.windows.cap(k.rule, k.start).start == k.start) ==>
              k !in Moved(card, range, ReplayOf(card, range, ts, excluded).rows, ExistingCaps(b, card, range))
  {
    var rows, caps := ReplayOf(card, range, ts, excluded).rows, range.caps.value;
    FinalRowsDated(b, card, range, ts, excluded);
    assert k !in rows by {
      assert k in rows ==> DatedRow(card, caps, k, rows[k]);
    }
    LoadedOfCard(b, card, range, ts);
    hide ReplayOf;
    forall t, e | t in ts && e in EntriesOf(t.record, Caps) && e.id == k.rule && e.start == k.start
      ensures !SupersededCap(card, caps, rows, e)
    {
      assert DatedTxn(card, t);
      if k.rule in card.caps {
        assert DatedCap(card, DayOf(t), e) && TiledCap(card, k.rule);
        var w := card.windows.cap(k.rule, DayOf(t));
        assert k.rule !in card.lifetime ==> card.windows.cap(k.rule, w.start) == w;
      }
    }
  }

  /** Away from the replay window no row is built, and only a row of no window can be deleted. */
  lemma AwayValue(b: Book, card: Card, range: Range, expected: bool, ts: seq<Txn>, excluded: set<Id>, k: Key)
    requires GoodRebuild(b, card, range, ts) && !(range.caps.Some? && Overlapping(card, range, k))
    ensures var v := Value(Rebuilt(b, card, range, expected, ts, excluded).caps, k);
      v == Value(b.caps, k) || (v == 0 && k.card == card.id && k.rule in card.caps
                                && card.windows.cap(k.rule, k.start).start != k.start)
  {
    var rows, existing := ReplayOf(card, range, ts, excluded).rows, ExistingCaps(b, card, range);
    RebuiltParts(b, card, range, expected, ts, excluded);
    NoCapRows(card, range, ts, excluded);
    FinalRowsDated(b, card, range, ts, excluded);
    assert k in rows ==> DatedRow(card, range.caps.value, k, rows[k]);
    if range.caps.Some? && k.card == card.id {
      AwayLeftAlone(b, card, range, ts, excluded, k);
    }
    hide Rebuilt, ReplayOf, Written, Changed, Emptied, GoodRebuild, SupersededCap, DatedRows;
    EmptiedInRows(rows, existing, k);
    WrittenElsewhere(b.caps, rows, Changed(rows, existing), Moved(card, range, rows, existing) + Emptied(rows,
        existing), k);
  }

  /** So its excess is as it was, or none. */
  lemma AwayExcess(b: Book, card: Card, range: Range, expected: bool, ts: seq<Txn>, excluded: set<Id>, k: Key)
    requires GoodRebuild(b, card, range, ts) && !(range.caps.Some? && Overlapping(card, range, k))
    ensures var a := Rebuilt(b, card, range, expected, ts, excluded);
      ExcessBut(a, excluded, Caps, k) == 0 || ExcessBut(a, excluded, Caps, k) == ExcessBut(b, excluded, Caps, k)
  {
    AwayValue(b, card, range, expected, ts, excluded, k);
    GoodRebuildBook(b, card, range, ts);
    hide Rebuilt, GoodRebuild, Sound, GoodBook, Loads, Total, Kept, Value;
    if k.card == card.id {
      if range.caps.Some? {
        AwayLeftAlone(b, card, range, ts, excluded, k);
      }
      hide Overlapping;
      SumStays(b, card, range, expected, ts, excluded, Caps, k);
      if k.rule in card.caps && card.windows.cap(k.rule, k.start).start != k.start {
        NoEntryOffWindows(b, card, excluded, k);
      }
    } else {
      SumStays(b, card, range, expected, ts, excluded, Caps, k);
    }
  }

  lemma CapExcess(b: Book, card: Card, range: Range, expected: bool, ts: seq<Txn>, excluded: set<Id>, k: Key)
    requires GoodRebuild(b, card, range, ts) && DropsNoSeed(card, range, ts, excluded)
    ensures var a := Rebuilt(b, card, range, expected, ts, excluded);
      ExcessBut(a, excluded, Caps, k) == 0 || ExcessBut(a, excluded, Caps, k) == ExcessBut(b, excluded, Caps, k)
  {
    if range.caps.Some? && Overlapping(card, range, k) {
      DatedFound(b, card, range, k);
      hide Rebuilt, Rebuilding, Total, Kept, Overlapping, SeedDropped;
      OverlapAgreesIff(b, card, range, expected, ts, excluded, k);
    } else {
      AwayExcess(b, card, range, expected, ts, excluded, k);
    }
  }

  lemma EmptiedInRows(rows: Table, existing: Table, k: Key)
    ensures k in Emptied(rows, existing) ==> k in rows
  {
  }

  lemma GoodRebuildBook(b: Book, card: Card, range: Range, ts: seq<Txn>)
    requires GoodRebuild(b, card, range, ts)
    ensures GoodBook(b, card) && Loads(b, card, range, ts) && Sound(card)
  {
  }

  // ---- milestone rows that end with their windows -----------------------------------------------------

  /** A milestone row that starts with a window of its rule ends with it. */
  ghost predicate SpanDated(cards: Cards, k: Key, row: Row) {
    forall day :: (exists m :: m in cards(k.card).milestones && m.id == k.rule) && InSpan(day) ==>
      var w := cards(k.card).windows.milestone(k.rule, day);
      w.Some? && w.value.start == k.start ==> w.value.end == row.end
  }

  ghost predicate SpansDated(rows: Table, cards: Cards) {
    forall k :: k in rows ==> SpanDated(cards, k, rows[k])
  }

  lemma {:induction false} SubtractSpansDated(t: Table, cards: Cards, card: Id, es: seq<Entry>)
    requires SpansDated(t, cards)
    ensures SpansDated(Subtract(t, card, es), cards)
    decreases |es|
  {
    if es != [] {
      var k := Key(card, es[0].id, es[0].start);
      var after := SubtractRow(t, k, es[0].delta);
      assert k in t ==> after[k].end == t[k].end && SpanDated(cards, k, t[k]);
      SubtractSpansDated(after, cards, card, es[1..]);
    }
  }

  /** A row of a window is dated. */
  lemma WindowSpanDated(cards: Cards, card: Id, id: Id, day: int, row: Row)
    requires GoodCards(cards) && InSpan(day) && cards(card).windows.milestone(id, day).Some?
    requires cards(card).windows.milestone(id, day).value.end == row.end
    ensures SpanDated(cards, Key(card, id, cards(card).windows.milestone(id, day).value.start), row)
  {
    assert TiledMilestones(cards(card));
    var k := Key(card, id, cards(card).windows.milestone(id, day).value.start);
    forall other | (exists m :: m in cards(card).milestones && m.id == id) && InSpan(other)
      ensures var w := cards(card).windows.milestone(id, other); w.Some? && w.value.start == k.start ==>
              w.value.end == row.end
    {
      SameStart(cards(card), id, day, other);
    }
  }

  lemma {:induction false} AddSpansDated(t: Table, cards: Cards, card: Id, day: int, moves: seq<Move>)
    requires GoodCards(cards) && InSpan(day) && SpansDated(t, cards)
    requires forall m :: m in moves ==> DatedMilestone(cards(card), day, m.entry)
    ensures SpansDated(AddMilestones(t, card, moves), cards)
    decreases |moves|
  {
    if moves != [] {
      var e := moves[0].entry;
      var k := Key(card, e.id, e.start);
      var after := AddRow(t, k, e.end, e.delta, MilestoneMark(moves[0].approximate));
      assert moves[0] in moves && DatedMilestone(cards(card), day, e);
      WindowSpanDated(cards, card, e.id, day, after[k]);
      hide SpanDated, DatedMilestone;
      assert SpansDated(after, cards);
      AddSpansDated(after, cards, card, day, moves[1..]);
    }
  }

  lemma MovesOfDatedEntries(card: Card, day: int, moves: seq<Move>)
    requires forall e :: e in Entries(moves) ==> DatedMilestone(card, day, e)
    ensures forall m :: m in moves ==> DatedMilestone(card, day, m.entry)
  {
    forall m | m in moves
      ensures DatedMilestone(card, day, m.entry)
    {
      var i :| 0 <= i < |moves| && moves[i] == m;
      assert Entries(moves)[i] in Entries(moves);
    }
  }

  lemma SpanRowsDated(card: Card, cards: Cards, range: Range, rows: Table)
    requires GoodCards(cards) && card == cards(card.id) && GoodSpans(card, range)
             && SpanRows(card, range.milestones, rows)
    ensures SpansDated(rows, cards)
  {
    forall k | k in rows
      ensures SpanDated(cards, k, rows[k])
    {
      var i :| 0 <= i < |range.milestones| && range.milestones[i].id == k.rule && range.milestones[i].window.start
          == k.start
               && range.milestones[i].window.end == rows[k].end;
      assert GoodSpan(card, range.asOf, range.milestones[i]);
      WindowSpanDated(cards, card.id, k.rule, range.asOf, rows[k]);
    }
  }

  lemma WrittenSpansDated(table: Table, cards: Cards, rows: Table, changed: set<Key>, deletes: set<Key>)
    requires SpansDated(table, cards) && SpansDated(rows, cards)
    ensures SpansDated(Written(table, Positive(rows), changed, deletes), cards)
  {
    hide SpanDated;
  }

  lemma RecordedSpans(b: Book, cards: Cards, id: Id, threshold: Id -> int)
    requires GoodCards(cards) && id in b.txns && InSpan(DayOf(b.txns[id])) && SpansDated(b.milestones, cards)
    ensures SpansDated(Recorded(b, cards(b.txns[id].card), id, threshold).milestones, cards)
  {
    var t, card := b.txns[id], cards(b.txns[id].card);
    var out := Compute(card, t.context, b.caps);
    var ms := MilestoneEntries(card, t.context, out.excluded);
    assert card.id == t.card;
    MilestoneMovesDated(card, card.milestones, t.context);
    assert forall e :: e in Entries(ms) ==> DatedMilestone(card, DayOf(t), e);
    MovesOfDatedEntries(card, DayOf(t), ms);
    AddSpansDated(b.milestones, cards, card.id, DayOf(t), ms);
  }

  lemma UndoSpans(b: Book, cards: Cards, record: Option<Record>, threshold: Id -> int)
    requires SpansDated(b.milestones, cards)
    ensures SpansDated(Undo(b, record, threshold).milestones, cards)
  {
    if record.Some? {
      SubtractSpansDated(b.milestones, cards, record.value.card, record.value.milestones);
    }
  }

  lemma RebuiltSpans(b: Book, cards: Cards, card: Card, range: Range, expected: bool, ts: seq<Txn>, excluded: set<Id>)
    requires GoodCards(cards) && card == cards(card.id) && GoodSpans(card, range) && SpansDated(b.milestones, cards)
    ensures SpansDated(Rebuilt(b, card, range, expected, ts, excluded).milestones, cards)
  {
    var slots := MilestoneSlots(map[], card, range.milestones);
    var counted, scope := MilestoneReplay(card, slots, slots, ts, excluded), Scope(b, card, range);
    FinalMilestoneRows(card, range, ts, excluded);
    RebuiltParts(b, card, range, expected, ts, excluded);
    hide Rebuilt, MilestoneReplay, MilestoneSlots, SpansDated, SpanRows, Scope, GoodCards, GoodSpans, Written;
    SpanRowsDated(card, cards, range, counted);
    WrittenSpansDated(b.milestones, cards, counted, Changed(counted, scope),
                      (set k | k in scope && k !in counted) + Emptied(counted, scope));
  }

  // ---- cap rows that end with their windows ----------------------------------------------------------

  ghost predicate CapsEnd(rows: Table, cards: Cards) {
    forall k :: k in rows ==> EndsWithCap(cards(k.card), k, rows[k])
  }

  /** Cap rows and milestone rows end with their windows. */
  ghost predicate RowsEnd(b: Book, cards: Cards) {
    CapsEnd(b.caps, cards) && SpansDated(b.milestones, cards)
  }

  lemma {:induction false} SubtractCapsEnd(t: Table, cards: Cards, card: Id, es: seq<Entry>)
    requires CapsEnd(t, cards)
    ensures CapsEnd(Subtract(t, card, es), cards)
    decreases |es|
  {
    if es != [] {
      SubtractCapsEnd(SubtractRow(t, Key(card, es[0].id, es[0].start), es[0].delta), cards, card, es[1..]);
    }
  }

  lemma {:induction false} AddCapsEnd(t: Table, cards: Cards, card: Id, day: int, moves: seq<Move>)
    requires GoodCards(cards) && CapsEnd(t, cards) && MovesDated(cards(card), day, moves)
    ensures CapsEnd(AddCaps(t, card, moves), cards)
    decreases |moves|
  {
    if moves != [] {
      var e := moves[0].entry;
      var k := Key(card, e.id, e.start);
      assert Sound(cards(card)) && TiledCap(cards(card), e.id) && DatedCap(cards(card), day, e);
      var w := cards(card).windows.cap(e.id, day);
      assert e.id !in cards(card).lifetime ==> cards(card).windows.cap(e.id, w.start) == w;
      var after := AddRow(t, k, e.end, e.delta, CapMarkOf(moves[0]));
      assert EndsWithCap(cards(card), k, after[k]);
      assert MovesDated(cards(card), day, moves[1..]);
      hide MovesDated, TiledCap, DatedCap, EndsWithCap;
      assert CapsEnd(after, cards);
      AddCapsEnd(after, cards, card, day, moves[1..]);
    }
  }

  lemma WrittenCapsEnd(table: Table, cards: Cards, rows: Table, changed: set<Key>, deletes: set<Key>)
    requires CapsEnd(table, cards) && CapsEnd(rows, cards)
    ensures CapsEnd(Written(table, Positive(rows), changed, deletes), cards)
  {
    hide EndsWithCap;
  }

  lemma ReplayedCapsEnd(b: Book, cards: Cards, card: Card, range: Range, ts: seq<Txn>, excluded: set<Id>)
    requires card == cards(card.id) && Rebuildable(b, card, range, ts)
    ensures CapsEnd(ReplayOf(card, range, ts, excluded).rows, cards)
  {
    var rows := ReplayOf(card, range, ts, excluded).rows;
    FinalRowsDated(b, card, range, ts, excluded);
    NoCapRows(card, range, ts, excluded);
    hide ReplayOf;
    forall k | k in rows
      ensures EndsWithCap(cards(k.card), k, rows[k])
    {
      assert DatedRow(card, range.caps.value, k, rows[k]);
    }
  }

  lemma RebuiltCapsEnd(b: Book, cards: Cards, card: Card, range: Range, expected: bool, ts: seq<Txn>,
                       excluded: set<Id>)
    requires card == cards(card.id) && Rebuildable(b, card, range, ts)
    requires CapsEnd(b.caps, cards)
    ensures CapsEnd(Rebuilt(b, card, range, expected, ts, excluded).caps, cards)
  {
    var rows, existing := ReplayOf(card, range, ts, excluded).rows, ExistingCaps(b, card, range);
    RebuiltParts(b, card, range, expected, ts, excluded);
    hide Rebuilt, ReplayOf, CapsEnd, Written, Rebuildable;
    ReplayedCapsEnd(b, cards, card, range, ts, excluded);
    WrittenCapsEnd(b.caps, cards, rows, Changed(rows, existing),
                   Moved(card, range, rows, existing) + Emptied(rows, existing));
  }

  // ---- rows that end with their windows, in any run ---------------------------------------------------

  lemma RecordedEnds(b: Book, cards: Cards, id: Id, threshold: Id -> int)
    requires GoodCards(cards) && id in b.txns && InSpan(DayOf(b.txns[id])) && RowsEnd(b, cards)
    ensures RowsEnd(Recorded(b, cards(b.txns[id].card), id, threshold), cards)
  {
    var t, card := b.txns[id], cards(b.txns[id].card);
    assert card.id == t.card && Sound(card);
    RecordedSpans(b, cards, id, threshold);
    ComputedDated(card, t.context, b.caps);
    hide CapsEnd, SpansDated, Compute, MovesDated;
    AddCapsEnd(b.caps, cards, card.id, DayOf(t), Compute(card, t.context, b.caps).moves);
  }

  lemma UndoEnds(b: Book, cards: Cards, record: Option<Record>, threshold: Id -> int)
    requires RowsEnd(b, cards)
    ensures RowsEnd(Undo(b, record, threshold), cards)
  {
    UndoSpans(b, cards, record, threshold);
    if record.Some? {
      SubtractCapsEnd(b.caps, cards, record.value.card, record.value.caps);
    }
  }

  lemma RebuiltEnds(b: Book, cards: Cards, c: Id, openedOn: Option<int>, req: Request, ts: seq<Txn>,
                    excluded: set<Id>, threshold: Id -> int)
    requires GoodCards(cards) && Good(b, cards, threshold) && Rebuilds(b, cards(c), openedOn, req, ts)
    requires RowsEnd(b, cards)
    ensures RowsEnd(Rebuilt(b, cards(c), RangeOf(cards(c), req), req.expected, ts, excluded), cards)
  {
    var card, range := cards(c), RangeOf(cards(c), req);
    assert card.id == c && Sound(card) && TiledMilestones(card);
    FloorLoadsAll(b, cards, c, openedOn, req, ts, threshold);
    hide CapsEnd, SpansDated, Rebuilt, RangeOf, Good, Rebuildable, Rebuilding, GoodSpans, GoodBook, Rebuilds;
    RebuiltSpans(b, cards, card, range, req.expected, ts, excluded);
    RebuiltCapsEnd(b, cards, card, range, req.expected, ts, excluded);
  }

  // ---- milestone counters --------------------------------------------------------------------------

  lemma {:induction false} SlotHeld(rows: Table, card: Card, spans: seq<Span>, s: Span)
    requires s in spans || Key(card.id, s.id, s.window.start) in rows
    ensures Key(card.id, s.id, s.window.start) in MilestoneSlots(rows, card, spans)
    decreases |spans|
  {
    if spans != [] {
      var w := spans[0].window;
      SlotHeld(rows[Key(card.id, spans[0].id, w.start) := Row(w.end, 0, MilestoneMark(w.approximate))], card,
               spans[1..], s);
    }
  }

  /** A window of a rebuilt milestone that meets the rebuilt one is the rebuilt one. */
  lemma MeetingSpan(card: Card, range: Range, s: Span, day: int)
    requires TiledMilestones(card) && GoodSpans(card, range) && s in range.milestones
    requires var w := card.windows.milestone(s.id, day);
      w.Some? && w.value.start <= s.window.end && s.window.start <= w.value.end
    ensures card.windows.milestone(s.id, day) == Some(s.window)
  {
    assert GoodSpan(card, range.asOf, s);
  }

  /** Off the rebuilt windows no entry meets one. */
  lemma OffSpan(card: Card, range: Range, day: int, e: Entry, s: Span)
    requires TiledMilestones(card) && GoodSpans(card, range) && s in range.milestones && s.id == e.id
             && DatedMilestone(card, day, e)
    requires Key(card.id, e.id, e.start) !in MilestoneSlots(map[], card, range.milestones)
    ensures !(e.start <= s.window.end && e.end >= s.window.start)
  {
    SlotHeld(map[], card, range.milestones, s);
    hide MilestoneSlots;
    if e.start <= s.window.end && e.end >= s.window.start {
      MeetingSpan(card, range, s, day);
    }
  }

  lemma OffSpans(b: Book, cards: Cards, card: Card, range: Range, ts: seq<Txn>, excluded: set<Id>, k: Key)
    requires TiledMilestones(card) && GoodSpans(card, range) && GoodTxns(b.txns, cards) && card == cards(card.id)
    requires Loads(b, card, range, ts) && k.card == card.id && k !in MilestoneSlots(map[], card, range.milestones)
    ensures LeftAloneAt(card, range, ts, excluded, Milestones, k)
  {
    var slots := MilestoneSlots(map[], card, range.milestones);
    LoadedOfCard(b, card, range, ts);
    hide MilestoneSlots, Loads, GoodSpans, TiledMilestones, DatedMilestone, DatedCap, DatedFee;
    forall t, e | t in ts && e in EntriesOf(t.record, Milestones) && e.id == k.rule && e.start == k.start
      ensures !SupersededMilestone(card, range.milestones, slots, e)
    {
      assert GoodTxn(cards, t.id, t) && DatedMilestone(card, DayOf(t), e);
      forall i | 0 <= i < |range.milestones| && range.milestones[i].id == e.id
        ensures !(e.start <= range.milestones[i].window.end && e.end >= range.milestones[i].window.start)
      {
        OffSpan(card, range, DayOf(t), e, range.milestones[i]);
      }
    }
  }

  lemma DeletedHasNoEntryOf(cards: Cards, card: Card, range: Range, t: Txn, e: Entry, k: Key, row: Row, s: Span)
    requires TiledMilestones(card) && GoodSpans(card, range) && card == cards(card.id) && s in range.milestones
             && s.id == k.rule
    requires k.card == card.id && k !in MilestoneSlots(map[], card, range.milestones) && SpanDated(cards, k, row)
    requires k.start <= s.window.end && row.end >= s.window.start && InSpan(DayOf(t))
             && DatedMilestone(card, DayOf(t), e)
    ensures !(e.id == k.rule && e.start == k.start)
  {
    hide MilestoneSlots, TiledMilestones;
    if e.id == k.rule && e.start == k.start {
      assert GoodSpan(card, range.asOf, s);
      OffSpan(card, range, DayOf(t), e, s);
    }
  }

  /** A stored row that meets a rebuilt window and is not rebuilt has no entry. */
  lemma DeletedHasNoEntry(b: Book, cards: Cards, card: Card, range: Range, excluded: set<Id>, k: Key)
    requires TiledMilestones(card) && GoodSpans(card, range) && GoodTxns(b.txns, cards) && card == cards(card.id)
    requires forall id :: cards(id).id == id
    requires SpansDated(b.milestones, cards) && k in Scope(b, card, range)
             && k !in MilestoneSlots(map[], card, range.milestones)
    ensures Total(Kept(b, excluded), Milestones, k) == 0
  {
    var row := b.milestones[k];
    var i :| 0 <= i < |range.milestones| && range.milestones[i].id == k.rule
             && k.start <= range.milestones[i].window.end && row.end >= range.milestones[i].window.start;
    var s := range.milestones[i];
    assert SpanDated(cards, k, row);
    hide MilestoneSlots, Scope, TiledMilestones, GoodSpans, SpanDated, DatedMilestone, DatedCap, DatedFee, Total;
    forall id | id in Kept(b, excluded)
      ensures RecordSum(b.txns[id].record, Milestones, k) == 0
    {
      var t := b.txns[id];
      assert GoodTxn(cards, id, t);
      if t.card == card.id {
        forall e | e in EntriesOf(t.record, Milestones)
          ensures !(e.id == k.rule && e.start == k.start)
        {
          assert DatedMilestone(card, DayOf(t), e);
          DeletedHasNoEntryOf(cards, card, range, t, e, k, row, s);
        }
        EntrySumNone(EntriesOf(t.record, Milestones), k.rule, k.start);
      }
    }
    TotalZero(Kept(b, excluded), Milestones, k);
  }

  lemma ScopeOfCard(b: Book, card: Card, range: Range, k: Key)
    requires k in Scope(b, card, range)
    ensures k.card == card.id && k in b.milestones
  {
  }

  /** A milestone counter that is not rebuilt: deleted, or as it was. */
  lemma UnbuiltMilestone(b: Book, card: Card, range: Range, expected: bool, ts: seq<Txn>, excluded: set<Id>, k: Key)
    requires k !in MilestoneSlots(map[], card, range.milestones)
    ensures Value(Rebuilt(b, card, range, expected, ts, excluded).milestones, k)
         == if k in Scope(b, card, range) then 0 else Value(b.milestones, k)
  {
    var slots, scope := MilestoneSlots(map[], card, range.milestones), Scope(b, card, range);
    hide MilestoneSlots, ReplayOf, MilestoneReplay, RecordUpdates, ExpectedUpdates, Written, Changed, Scope;
    RebuiltParts(b, card, range, expected, ts, excluded);
    MilestoneReplayKeys(card, slots, slots, ts, excluded);
    var counted := MilestoneReplay(card, slots, slots, ts, excluded);
    EmptiedInRows(counted, scope, k);
    hide Rebuilt, Emptied;
    var gone := set j | j in scope && j !in counted;
    WrittenElsewhere(b.milestones, counted, Changed(counted, scope), gone + Emptied(counted, scope), k);
  }

  lemma UnbuiltExcess(b: Book, cards: Cards, card: Card, range: Range, expected: bool, ts: seq<Txn>,
                      excluded: set<Id>, k: Key)
    requires GoodRebuild(b, card, range, ts) && GoodTxns(b.txns, cards) && card == cards(card.id)
    requires SpansDated(b.milestones, cards) && forall id :: cards(id).id == id
    requires k !in MilestoneSlots(map[], card, range.milestones)
    ensures var x := ExcessBut(Rebuilt(b, card, range, expected, ts, excluded), excluded, Milestones, k);
      x == 0 || x == ExcessBut(b, excluded, Milestones, k)
  {
    GoodRebuildBook(b, card, range, ts);
    GoodRebuildSpans(b, card, range, ts);
    hide Rebuilt, MilestoneSlots, GoodRebuild, GoodBook, Sound, TiledMilestones, GoodSpans, GoodMilestones, Scope,
    SpansDated, GoodTxns, Loads, LeftAloneAt, Kept, Total, Value;
    UnbuiltMilestone(b, card, range, expected, ts, excluded, k);
    if k.card == card.id {
      OffSpans(b, cards, card, range, ts, excluded, k);
    }
    SumStays(b, card, range, expected, ts, excluded, Milestones, k);
    if k in Scope(b, card, range) {
      ScopeOfCard(b, card, range, k);
      DeletedHasNoEntry(b, cards, card, range, excluded, k);
    }
  }

  lemma MilestoneExcess(b: Book, cards: Cards, card: Card, range: Range, expected: bool, ts: seq<Txn>,
                        excluded: set<Id>, k: Key)
    requires GoodRebuild(b, card, range, ts) && GoodTxns(b.txns, cards) && card == cards(card.id)
    requires SpansDated(b.milestones, cards) && forall id :: cards(id).id == id
    ensures var x := ExcessBut(Rebuilt(b, card, range, expected, ts, excluded), excluded, Milestones, k);
      x == 0 || x == ExcessBut(b, excluded, Milestones, k)
  {
    if k in MilestoneSlots(map[], card, range.milestones) {
      GoodRebuildBook(b, card, range, ts);
      GoodRebuildSpans(b, card, range, ts);
      hide Rebuilt, MilestoneSlots, GoodRebuild, GoodBook, TiledMilestones, GoodSpans, GoodMilestones, Loads, Kept,
      Total;
      MilestoneAgreement(b, card, range, expected, ts, excluded, k);
    } else {
      UnbuiltExcess(b, cards, card, range, expected, ts, excluded, k);
    }
  }

  lemma GoodRebuildSpans(b: Book, card: Card, range: Range, ts: seq<Txn>)
    requires GoodRebuild(b, card, range, ts)
    ensures TiledMilestones(card) && GoodSpans(card, range) && GoodMilestones(b, card, range)
  {
  }

  lemma {:induction false} MilestoneReplayKeys(card: Card, slots: Table, rows: Table, ts: seq<Txn>, excluded: set<Id>)
    ensures MilestoneReplay(card, slots, rows, ts, excluded).Keys == rows.Keys
    decreases |ts|
  {
    if ts != [] {
      AddEntriesSum(card, rows, NewMilestones(card, slots, ts[0].context));
      MilestoneReplayKeys(card, slots,
                          if Counts(ts[0], excluded) then AddMilestoneEntries(card, rows,
                              NewMilestones(card, slots, ts[0].context)) else rows,
                          ts[1..], excluded);
    }
  }

  /** A rebuild that drops no seed leaves each counter where it was above its sum, or exactly at it. */
  lemma RebuiltExcess(b: Book, cards: Cards, c: Id, openedOn: Option<int>, req: Request, ts: seq<Txn>,
                      excluded: set<Id>, threshold: Id -> int,
                      section: Section, k: Key)
    requires GoodCards(cards) && Good(b, cards, threshold) && RowsEnd(b, cards)
    requires Rebuilds(b, cards(c), openedOn, req, ts)
    requires DropsNoSeed(cards(c), RangeOf(cards(c), req), ts, excluded)
    ensures var a := Rebuilt(b, cards(c), RangeOf(cards(c), req), req.expected, ts, excluded);
      ExcessBut(a, excluded, section, k) == 0 || ExcessBut(a, excluded, section, k) == ExcessBut(b, excluded, section,
          k)
  {
    var card, range := cards(c), RangeOf(cards(c), req);
    assert card.id == c && Sound(card) && TiledMilestones(card);
    FloorLoadsAll(b, cards, c, openedOn, req, ts, threshold);
    GoodIsGoodBook(b, cards, threshold, c);
    assert GoodRebuild(b, card, range, ts);
    hide Rebuilt, RangeOf, GoodRebuild, Rebuilds, DropsNoSeed, ExcessBut;
    match section {
      case Caps => CapExcess(b, card, range, req.expected, ts, excluded, k);
      case Milestones => MilestoneExcess(b, cards, card, range, req.expected, ts, excluded, k);
      case Fees => FeesUntouched(b, card, range, req.expected, ts, excluded, k);
    }
  }

  lemma FeesUntouched(b: Book, card: Card, range: Range, expected: bool, ts: seq<Txn>, excluded: set<Id>, k: Key)
    requires GoodRebuild(b, card, range, ts)
    ensures ExcessBut(Rebuilt(b, card, range, expected, ts, excluded), excluded, Fees, k)
            == ExcessBut(b, excluded, Fees, k)
  {
    GoodRebuildBook(b, card, range, ts);
    RebuiltFees(b, card, range, expected, ts, excluded);
    hide Rebuilt, GoodRebuild;
    SumStays(b, card, range, expected, ts, excluded, Fees, k);
  }

  // ---- fee-waiver counters -------------------------------------------------------------------------

  lemma {:induction false} FeeEntriesKeys(card: Card, ws: seq<FeeWindow>, t: Txn)
    ensures forall e :: e in FeeEntriesIn(card, ws, t) ==> KeyOf(card, e) in ZeroTotals(card, ws)
    decreases |ws|
  {
    if ws != [] {
      FeeEntriesKeys(card, ws[1..], t);
      forall e | e in FeeEntriesIn(card, ws[1..], t)
        ensures KeyOf(card, e) in ZeroTotals(card, ws)
      {
        var i :| 0 <= i < |ws[1..]| && KeyOf(card, e) == FeeKey(card, ws[1..][i]);
        assert ws[i + 1] == ws[1..][i];
      }
      assert FeeKey(card, ws[0]) in ZeroTotals(card, ws);
    }
  }

  lemma NextFeeRecordStays(card: Card, ws: seq<FeeWindow>, t: Txn, section: Section, k: Key)
    requires k.card == card.id && (section == Fees ==> k !in ZeroTotals(card, ws))
             && (t.record.Some? ==> t.record.value.card == card.id)
    ensures RecordSum(NextFeeRecord(card, ws, t), section, k) == RecordSum(t.record, section, k)
  {
    var stored := EntriesOf(t.record, Fees);
    ToRecordSum(card.id, EntriesOf(t.record, Caps), EntriesOf(t.record, Milestones), NextFees(card, ws, t), section, k);
    if section == Fees {
      FeeEntriesKeys(card, ws, t);
      EntrySumKeep(stored, e => KeyOf(card, e) !in ZeroTotals(card, ws), k.rule, k.start);
      EntrySumNone(NewFees(card, ws, t), k.rule, k.start);
      EntrySumConcat(Keep(stored, e => KeyOf(card, e) !in ZeroTotals(card, ws)), NewFees(card, ws, t), k.rule, k.start);
    }
  }

  lemma FeeSumStays(b: Book, cards: Cards, c: Id, day: int, ts: seq<Txn>, threshold: Id -> int, section: Section,
                    k: Key)
    requires GoodCards(cards) && Good(b, cards, threshold) && FeeRebuilds(b, cards(c), day, ts)
    requires section == Fees && k.card == c ==> k !in ZeroTotals(cards(c), FeeWindowsOf(cards(c), cards(c).fees, day))
    ensures Total(FeesRebuilt(b, cards(c), day, ts, threshold).txns, section, k) == Total(b.txns, section, k)
  {
    var card, ws := cards(c), FeeWindowsOf(cards(c), cards(c).fees, day);
    var a := FeesRebuilt(b, card, day, ts, threshold);
    assert card.id == c;
    FeeRecordsAt(card, ws, ts);
    forall id | id in b.txns
      ensures RecordSum(a.txns[id].record, section, k) == RecordSum(b.txns[id].record, section, k)
    {
      var t, u := b.txns[id], FeeRecords(card, ws, ts);
      assert GoodTxn(cards, id, t);
      if id in u {
        assert t in ts;
        FeeTxnOfCard(b, card, ws, ts, t);
        hide NextFeeRecord, Canonical, ZeroTotals, FeeRows, Totals;
        if k.card == c {
          NextFeeRecordStays(card, ws, t, section, k);
        } else {
          NextFeeRecordCard(card, ws, t);
        }
      }
    }
    TotalSame(a.txns, b.txns, section, k);
  }

  lemma NextFeeRecordCard(card: Card, ws: seq<FeeWindow>, t: Txn)
    ensures var next := NextFeeRecord(card, ws, t); next.Some? ==> next.value.card == card.id
  {
  }

  lemma CurrentWindow(card: Card, ws: seq<FeeWindow>, k: Key) returns (i: nat)
    requires k in ZeroTotals(card, ws)
    ensures i < |ws| && FeeKey(card, ws[i]) == k
  {
    i :| 0 <= i < |ws| && FeeKey(card, ws[i]) == k;
  }

  /** A current row: the rebuild makes it its sum. */
  lemma CurrentFeeExcess(b: Book, cards: Cards, c: Id, day: int, ts: seq<Txn>, threshold: Id -> int, k: Key)
    requires GoodCards(cards) && Good(b, cards, threshold) && FeeRebuilds(b, cards(c), day, ts)
    requires NearWindows(cards(c)) && DistinctRules(cards(c).fees)
    requires k in ZeroTotals(cards(c), FeeWindowsOf(cards(c), cards(c).fees, day))
    ensures Excess(FeesRebuilt(b, cards(c), day, ts, threshold), Fees, k) == 0
  {
    hide GoodFees, GoodBook, FeesRebuilt, NearWindows, Good, GoodCards, Total, ZeroTotals, StoredRowsDated,
    DatedMilestones,
      DistinctRules, FeeKey, Value;
    var card, ws := cards(c), FeeWindowsOf(cards(c), cards(c).fees, day);
    GoodIsGoodBook(b, cards, threshold, c);
    var i := CurrentWindow(card, ws, k);
    FeeAgreement(b, card, day, ts, threshold, i);
  }

  /** Any other fee row is as it was. */
  lemma OtherFeeRow(card: Card, table: Table, ws: seq<FeeWindow>, ts: seq<Txn>, threshold: Id -> int, k: Key)
    requires k !in ZeroTotals(card, ws) && forall i, j :: 0 <= i < j < |ws| ==> ws[i].rule.id != ws[j].rule.id
    ensures Value(FeeRows(card, table, ws, Totals(card, ws, ZeroTotals(card, ws), ts), threshold), k) == Value(table, k)
  {
    TotalsKeys(card, ws, ZeroTotals(card, ws), ts);
    assert forall i :: 0 <= i < |ws| ==> FeeKey(card, ws[i]) in ZeroTotals(card, ws);
    hide Totals, ZeroTotals;
    FeeRowsAt(card, table, ws, Totals(card, ws, ZeroTotals(card, ws), ts), threshold);
  }

  /** A fee-waiver rebuild leaves each counter where it was above its sum, or exactly at it. */
  lemma FeesRebuiltExcess(b: Book, cards: Cards, c: Id, day: int, ts: seq<Txn>, threshold: Id -> int, section: Section,
                          k: Key)
    requires GoodCards(cards) && Good(b, cards, threshold) && FeeRebuilds(b, cards(c), day, ts)
    requires NearWindows(cards(c)) && DistinctRules(cards(c).fees)
    ensures var x := Excess(FeesRebuilt(b, cards(c), day, ts, threshold), section, k);
      x == 0 || x == Excess(b, section, k)
  {
    var card, ws := cards(c), FeeWindowsOf(cards(c), cards(c).fees, day);
    hide GoodCards, Good, FeeRebuilds, NearWindows, ZeroTotals, Totals, FeeRows, FeeRecords, Total;
    if section == Fees && k in ZeroTotals(card, ws) {
      CurrentFeeExcess(b, cards, c, day, ts, threshold, k);
    } else {
      FeeSumStays(b, cards, c, day, ts, threshold, section, k);
      if section == Fees {
        OtherFeeRow(card, b.fees, ws, ts, threshold, k);
      }
    }
  }

  lemma {:induction false} TotalsKeys(card: Card, ws: seq<FeeWindow>, totals: map<Key, int>, ts: seq<Txn>)
    ensures Totals(card, ws, totals, ts).Keys == totals.Keys
    decreases |ts|
  {
    if ts != [] {
      AddTotalsSum(card, totals, NewFees(card, ws, ts[0]));
      TotalsKeys(card, ws, AddTotals(card, totals, NewFees(card, ws, ts[0])), ts[1..]);
    }
  }

  // ---- live operations -----------------------------------------------------------------------------

  lemma ClearedExcess(b: Book, id: Id, threshold: Id -> int, section: Section, k: Key)
    requires AtLeastRecorded(b) && id in b.txns
    ensures ExcessBut(Cleared(b, id, threshold), {id}, section, k) == Excess(b, section, k)
  {
    ClearedSum(b, id, threshold, section, k);
    ClearedTxns(b, id, threshold);
    hide Cleared, Total;
    TotalPick(b.txns, id, section, k);
    assert Kept(Cleared(b, id, threshold), {id}) == b.txns - {id};
  }

  lemma ClearedTxns(b: Book, id: Id, threshold: Id -> int)
    requires id in b.txns
    ensures Cleared(b, id, threshold).txns == b.txns
  {
  }

  lemma RecordedExcess(r: Book, card: Card, id: Id, threshold: Id -> int, section: Section, k: Key)
    requires Clean(r) && id in r.txns
    ensures Excess(Recorded(r, card, id, threshold), section, k) == ExcessBut(r, {id}, section, k)
  {
    hide Recorded, Total;
    var a := Recorded(r, card, id, threshold);
    RecordedSum(r, card, id, threshold, section, k);
    RecordedOnly(r, card, id, threshold);
    TotalPick(a.txns, id, section, k);
    assert a.txns - {id} == Kept(r, {id});
  }

  lemma ReversedExcess(b: Book, id: Id, threshold: Id -> int, section: Section, k: Key)
    requires AtLeastRecorded(b) && id in b.txns && b.txns[id].id == id
    ensures Excess(Reversed(b, id, threshold), section, k) == Excess(b, section, k)
  {
    UndoExact(b, id, threshold);
    var a := Reversed(b, id, threshold);
    TotalUpdate(b.txns, a.txns[id], section, k);
  }

  lemma DeferredExcess(b: Book, id: Id, section: Section, k: Key)
    requires id in b.txns && b.txns[id].id == id
    ensures Excess(DeferredApply(b, id), section, k) == Excess(b, section, k) + RecordSum(b.txns[id].record, section, k)
    ensures Excess(Detached(b, id), section, k) == Excess(b, section, k) + RecordSum(b.txns[id].record, section, k)
  {
    TotalUpdate(b.txns, DeferredApply(b, id).txns[id], section, k);
    TotalUpdate(b.txns, Detached(b, id).txns[id], section, k);
  }

  lemma WrittenExcess(b: Book, t: Txn, section: Section, k: Key)
    requires t.id in b.txns ==> b.txns[t.id].id == t.id
    ensures var a := b.(txns := b.txns[t.id := t.(record := if t.id in b.txns then b.txns[t.id].record else None)]);
      Excess(a, section, k) == Excess(b, section, k)
  {
    var a := b.(txns := b.txns[t.id := t.(record := if t.id in b.txns then b.txns[t.id].record else None)]);
    if t.id in b.txns {
      TotalUpdate(b.txns, a.txns[t.id], section, k);
    } else {
      TotalPick(a.txns, t.id, section, k);
      assert a.txns - {t.id} == b.txns;
    }
  }

  // ---- whole runs ----------------------------------------------------------------------------------

  predicate Defers(a: Action) { a.FailedApply? || a.FailedReverse? }

  /** The action writes no row of the v1 path and its rebuild drops no seed; a fee-waiver rebuild is of
      v1's windows and of distinct rules. */
  ghost predicate Steady(b: Book, a: Action, cards: Cards, threshold: Id -> int) {
    match a
    case Apply(id, openedOn, floor, ts) =>
      id in b.txns ==>
        var card, c := cards(b.txns[id].card), Cleared(b, id, threshold);
        Stale(card, c.caps, b.txns[id].context) ==>
            DropsNoSeed(card, RangeOf(card, Around(b.txns[id], floor)), ts, {id})
    case V1Row(_, _, _) => false
    case Rebuild(c, openedOn, req, ts) => DropsNoSeed(cards(c), RangeOf(cards(c), req), ts, {})
    case FeeRebuild(c, _, _) => NearWindows(cards(c)) && DistinctRules(cards(c).fees)
    case _ => true
  }

  lemma ApplyExcess(b: Book, cards: Cards, a: Action, threshold: Id -> int, section: Section, k: Key)
    requires a.Apply? && GoodCards(cards) && Good(b, cards, threshold) && RowsEnd(b, cards)
    requires AtLeastRecorded(b)
    requires Possible(b, a, cards, threshold) && Steady(b, a, cards, threshold)
    ensures var x := Excess(After(b, a, cards, threshold), section, k); x == 0 || x == Excess(b, section, k)
  {
    var t, c := b.txns[a.id], Cleared(b, a.id, threshold);
    var card, req := cards(t.card), Around(t, a.floor);
    ClearedGood(b, cards, a.id, threshold);
    UndoEnds(b, cards, t.record, threshold);
    ClearedExcess(b, a.id, threshold, section, k);
    GoodClean(c, cards, threshold);
    hide RowsEnd, Good, Recorded, Stale, GoodCards, Rebuilds, Cleared, Rebuilt, RangeOf, DropsNoSeed, Excess, ExcessBut,
    AtLeastRecorded;
    if !Stale(card, c.caps, t.context) {
      RecordedExcess(c, card, a.id, threshold, section, k);
    } else {
      var r := Rebuilt(c, card, RangeOf(card, req), false, a.ts, {a.id});
      RebuiltExcess(c, cards, t.card, a.openedOn, req, a.ts, {a.id}, threshold, section, k);
      RebuiltGood(c, cards, t.card, a.openedOn, req, a.ts, {a.id}, threshold);
      RebuiltKeepsCard(c, card, RangeOf(card, req), a.ts, a.id);
      GoodClean(r, cards, threshold);
      RecordedExcess(r, card, a.id, threshold, section, k);
    }
  }

  lemma GoodClean(b: Book, cards: Cards, threshold: Id -> int)
    requires Good(b, cards, threshold)
    ensures Clean(b)
  {
  }

  lemma GoodIds(b: Book, cards: Cards, threshold: Id -> int, id: Id)
    requires Good(b, cards, threshold) && id in b.txns
    ensures b.txns[id].id == id
  {
    assert GoodTxn(cards, id, b.txns[id]);
  }

  /** A steady action moves no counter away from its sum, but for the entries a deferral drops. */
  lemma AfterExcess(b: Book, cards: Cards, a: Action, threshold: Id -> int, section: Section, k: Key)
    requires GoodCards(cards) && Good(b, cards, threshold) && RowsEnd(b, cards) && AtLeastRecorded(b)
    requires Possible(b, a, cards, threshold) && Steady(b, a, cards, threshold)
    ensures var x, y := Excess(After(b, a, cards, threshold), section, k), Excess(b, section, k);
      if Defers(a) then x == y + RecordSum(b.txns[a.id].record, section, k) else x == 0 || x == y
  {
    hide Good, GoodCards, Rebuilds, FeeRebuilds, Rebuilt, FeesRebuilt, Recorded, Cleared, Reversed, DeferredApply,
    Detached, Stale, RangeOf, RowsEnd,
      DropsNoSeed, Excess, ExcessBut, AtLeastRecorded, NearWindows;
    match a {
      case Apply(_, _, _, _) => ApplyExcess(b, cards, a, threshold, section, k);
      case Reverse(id) =>
        GoodIds(b, cards, threshold, id);
        ReversedExcess(b, id, threshold, section, k);
      case FailedApply(id) =>
        GoodIds(b, cards, threshold, id);
        DeferredExcess(b, id, section, k);
      case FailedReverse(id) =>
        GoodIds(b, cards, threshold, id);
        DeferredExcess(b, id, section, k);
      case Write(t) =>
        if t.id in b.txns {
          GoodIds(b, cards, threshold, t.id);
        }
        WrittenExcess(b, t, section, k);
      case Rebuild(c, openedOn, req, ts) =>
        RebuiltExcess(b, cards, c, openedOn, req, ts, {}, threshold, section, k);
        NoneExcluded(b, section, k);
        NoneExcluded(After(b, a, cards, threshold), section, k);
      case FeeRebuild(c, day, ts) => FeesRebuiltExcess(b, cards, c, day, ts, threshold, section, k);
    }
  }

  /** And a steady action leaves rows ending with their windows. */
  lemma AfterEnds(b: Book, cards: Cards, a: Action, threshold: Id -> int)
    requires GoodCards(cards) && Good(b, cards, threshold) && RowsEnd(b, cards)
    requires Possible(b, a, cards, threshold) && Steady(b, a, cards, threshold)
    ensures RowsEnd(After(b, a, cards, threshold), cards)
  {
    hide CapsEnd, SpansDated, Rebuilt, RangeOf, Good, GoodCards, Rebuilds;
    match a {
      case Apply(id, openedOn, floor, ts) => ApplyEnds(b, cards, a, threshold);
      case Reverse(id) => UndoEnds(b, cards, b.txns[id].record, threshold);
      case Rebuild(c, openedOn, req, ts) => RebuiltEnds(b, cards, c, openedOn, req, ts, {}, threshold);
      case _ =>
    }
  }

  lemma ApplyEnds(b: Book, cards: Cards, a: Action, threshold: Id -> int)
    requires a.Apply? && GoodCards(cards) && Good(b, cards, threshold) && RowsEnd(b, cards)
    requires Possible(b, a, cards, threshold)
    ensures RowsEnd(After(b, a, cards, threshold), cards)
  {
    var t, c := b.txns[a.id], Cleared(b, a.id, threshold);
    var card, req := cards(t.card), Around(t, a.floor);
    assert GoodTxn(cards, a.id, t);
    UndoEnds(b, cards, t.record, threshold);
    ClearedGood(b, cards, a.id, threshold);
    hide RowsEnd, Rebuilt, RangeOf, Good, GoodCards, Rebuilds, Recorded, Cleared, Stale, GoodTxn;
    if Stale(card, c.caps, t.context) {
      var r := Rebuilt(c, card, RangeOf(card, req), false, a.ts, {a.id});
      RebuiltEnds(c, cards, t.card, a.openedOn, req, a.ts, {a.id}, threshold);
      RebuiltContext(c, card, RangeOf(card, req), a.ts, a.id);
      RecordedEnds(r, cards, a.id, threshold);
    } else {
      RecordedEnds(c, cards, a.id, threshold);
    }
  }

  lemma RebuiltContext(b: Book, card: Card, range: Range, ts: seq<Txn>, id: Id)
    requires id in b.txns
    ensures var a := Rebuilt(b, card, range, false, ts, {id});
      id in a.txns && a.txns[id].card == b.txns[id].card && a.txns[id].context == b.txns[id].context
  {
  }

  /** Every possible action of the run is steady. */
  ghost predicate SteadyRun(b: Book, actions: seq<Action>, cards: Cards, threshold: Id -> int)
    decreases |actions|
  {
    actions == [] ||
    if Possible(b, actions[0], cards, threshold) then
      Steady(b, actions[0], cards, threshold) && SteadyRun(After(b, actions[0], cards, threshold), actions[1..], cards,
                                                           threshold)
    else SteadyRun(b, actions[1..], cards, threshold)
  }

  lemma AfterSums(b: Book, cards: Cards, a: Action, threshold: Id -> int)
    requires GoodCards(cards) && Good(b, cards, threshold) && RowsEnd(b, cards) && AtLeastRecorded(b)
    requires Possible(b, a, cards, threshold) && Steady(b, a, cards, threshold)
    ensures AtLeastRecorded(After(b, a, cards, threshold))
    ensures Agrees(b) && !Defers(a) ==> Agrees(After(b, a, cards, threshold))
  {
    var after := After(b, a, cards, threshold);
    hide Good, GoodCards, Possible, Steady, After, Total, RecordSum, RowsEnd;
    forall section, k
      ensures Total(after.txns, section, k) <= Value(TableOf(after, section), k)
      ensures Agrees(b) && !Defers(a) ==> Value(TableOf(after, section), k) == Total(after.txns, section, k)
    {
      AfterExcess(b, cards, a, threshold, section, k);
      assert Total(b.txns, section, k) <= Value(TableOf(b, section), k);
    }
  }

  /** Over every run with rebuilds interleaved, as long as no rebuild drops a seed, each counter is at
      least the sum of its record entries, and exactly that sum when no failure was deferred. */
  lemma {:induction false} RunSums(b: Book, cards: Cards, actions: seq<Action>, threshold: Id -> int)
    requires GoodCards(cards) && Good(b, cards, threshold) && RowsEnd(b, cards) && AtLeastRecorded(b)
             && SteadyRun(b, actions, cards, threshold)
    ensures AtLeastRecorded(RunAll(b, actions, cards, threshold))
    ensures Agrees(b) && (forall i :: 0 <= i < |actions| ==> !Defers(actions[i])) ==>
            Agrees(RunAll(b, actions, cards, threshold))
    decreases |actions|
  {
    if actions != [] {
      hide Good, GoodCards, Possible, After, Steady, AtLeastRecorded, Agrees, RowsEnd;
      assert forall i :: 0 <= i < |actions[1..]| ==> actions[1..][i] == actions[i + 1];
      if Possible(b, actions[0], cards, threshold) {
        AfterGood(b, cards, actions[0], threshold);
        AfterEnds(b, cards, actions[0], threshold);
        AfterSums(b, cards, actions[0], threshold);
        RunSums(After(b, actions[0], cards, threshold), cards, actions[1..], threshold);
      } else {
        RunSums(b, cards, actions[1..], threshold);
      }
    }
  }

  lemma EmptySums()
    ensures AtLeastRecorded(EmptyBook()) && Agrees(EmptyBook())
  {
    forall section, k
      ensures Total(EmptyBook().txns, section, k) == 0 == Value(TableOf(EmptyBook(), section), k)
    {
    }
  }

  /** From an empty store. */
  lemma RunSumsFromEmpty(cards: Cards, actions: seq<Action>, threshold: Id -> int)
    requires GoodCards(cards) && SteadyRun(EmptyBook(), actions, cards, threshold)
    ensures AtLeastRecorded(RunAll(EmptyBook(), actions, cards, threshold))
    ensures (forall i :: 0 <= i < |actions| ==> !Defers(actions[i])) ==>
            Agrees(RunAll(EmptyBook(), actions, cards, threshold))
  {
    EmptyGood(cards, threshold);
    EmptySums();
    assert RowsEnd(EmptyBook(), cards);
    hide Good, AtLeastRecorded, Agrees, SteadyRun, RunAll;
    RunSums(EmptyBook(), cards, actions, threshold);
  }
}
