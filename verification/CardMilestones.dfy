/** Rebuild agreement for milestone rows. */
module CardMilestones {
  import opened Basics
  import opened CardRecords
  import opened CardModel
  import opened CardReplay
  import opened CardRange
  import opened CardAgreement

  /** The rebuilt windows are those of the card's milestones containing `asOf`. */
  ghost predicate GoodSpan(card: Card, day: int, s: Span) {
    && (exists m :: m in card.milestones && m.id == s.id)
    && card.windows.milestone(s.id, day) == Some(s.window)
  }

  ghost predicate GoodSpans(card: Card, range: Range) {
    InSpan(range.asOf) && forall s :: s in range.milestones ==> GoodSpan(card, range.asOf, s)
  }

  lemma {:induction false} SpansGood(card: Card, rules: seq<Rule>, day: int)
    requires forall m :: m in rules ==> m in card.milestones
    ensures forall s :: s in SpansOf(card, rules, day) ==> GoodSpan(card, day, s)
    decreases |rules|
  {
    if rules != [] {
      SpansGood(card, rules[1..], day);
      assert rules[0] in card.milestones;
      var w := card.windows.milestone(rules[0].id, day);
      if w.Some? {
        assert GoodSpan(card, day, Span(rules[0].id, w.value));
      }
    }
  }

  ghost predicate DatedMilestones(card: Card, t: Txn) {
    t.record.Some? ==>
      forall e :: e in t.record.value.milestones ==>
        forall m :: m in card.milestones && m.id == e.id ==>
          var w := card.windows.milestone(m.id, DayOf(t));
          w.Some? && w.value.start == e.start && w.value.end == e.end
  }

  ghost predicate LoadsSpans(range: Range, day: int) {
    forall i :: 0 <= i < |range.milestones| && range.milestones[i].window.start <= day <= range.milestones[i].window.end
      ==> InLoad(range, day)
  }

  ghost predicate GoodMilestones(b: Book, card: Card, range: Range) {
    && (forall id :: id in b.txns && b.txns[id].card == card.id ==>
          DatedMilestones(card, b.txns[id]) && LoadsSpans(range, DayOf(b.txns[id])))
    && (forall k :: k in b.milestones ==> b.milestones[k].end >= k.start)
  }

  /** `rebuildRange` gives such a range when no spend of the card is before the floor. */
  lemma RangeGoodSpans(b: Book, card: Card, req: Request)
    requires Tiled(card) && GoodBook(b, card) && InSpan(req.asOf) && GoodRange(RangeOf(card, req))
    requires forall id :: id in b.txns && b.txns[id].card == card.id ==>
               DatedMilestones(card, b.txns[id]) && (req.floor.Some? ==> req.floor.value <= DayOf(b.txns[id]))
    requires forall k :: k in b.milestones ==> b.milestones[k].end >= k.start
    ensures GoodSpans(card, RangeOf(card, req)) && GoodMilestones(b, card, RangeOf(card, req))
  {
    SpansGood(card, card.milestones, req.asOf);
    forall id | id in b.txns && b.txns[id].card == card.id
      ensures LoadsSpans(RangeOf(card, req), DayOf(b.txns[id]))
    {
      RangeComplete(card, req, DayOf(b.txns[id]));
    }
  }

  /** Two days whose milestone windows start together have one window. */
  lemma SameStart(card: Card, id: Id, day: int, other: int)
    requires TiledMilestones(card) && (exists m :: m in card.milestones && m.id == id) && InSpan(day) && InSpan(other)
    ensures var w, v := card.windows.milestone(id, day), card.windows.milestone(id, other);
      && (w.Some? ==> w.value.start <= day <= w.value.end)
      && (w.Some? && v.Some? && w.value.start == v.value.start ==> v == w)
  {
  }

  /** A slot is a rebuilt window, empty. */
  ghost predicate SpanSlots(card: Card, spans: seq<Span>, slots: Table) {
    forall k :: k in slots ==>
      k.card == card.id
      && exists i :: 0 <= i < |spans| && spans[i].id == k.rule && spans[i].window.start == k.start
  }

  lemma {:induction false} SlotsAreSpans(rows: Table, card: Card, spans: seq<Span>, all: seq<Span>)
    requires SpanSlots(card, all, rows) && forall k :: k in rows ==> rows[k].value == 0
    requires forall s :: s in spans ==> s in all
    ensures var slots := MilestoneSlots(rows, card, spans);
      SpanSlots(card, all, slots) && forall k :: k in slots ==> slots[k].value == 0
    decreases |spans|
  {
    if spans != [] {
      assert spans[0] in all;
      var w := spans[0].window;
      SlotsAreSpans(rows[Key(card.id, spans[0].id, w.start) := Row(w.end, 0, MilestoneMark(w.approximate))], card,
                    spans[1..], all);
    }
  }

  lemma {:induction false} AddEntriesSum(card: Card, rows: Table, es: seq<Entry>)
    ensures var after := AddMilestoneEntries(card, rows, es);
      && after.Keys == rows.Keys
      && forall k: Key :: k in rows && k.card == card.id ==>
         after[k].value == rows[k].value + EntrySum(es, k.rule, k.start)
    decreases |es|
  {
    if es != [] {
      var k := KeyOf(card, es[0]);
      AddEntriesSum(card, if k in rows then rows[k := rows[k].(value := rows[k].value + es[0].delta)] else rows,
                    es[1..]);
    }
  }

  function Progress(card: Card, slots: Table, excluded: set<Id>, t: Txn, k: Key): nat {
    if Counts(t, excluded) then EntrySum(NewMilestones(card, slots, t.context), k.rule, k.start) else 0
  }

  function AllProgress(card: Card, slots: Table, excluded: set<Id>, ts: seq<Txn>, k: Key): nat
    decreases |ts|
  {
    if ts == [] then 0 else Progress(card, slots, excluded, ts[0], k) + AllProgress(card, slots, excluded, ts[1..], k)
  }

  lemma {:induction false} MilestoneReplaySum(card: Card, slots: Table, rows: Table, ts: seq<Txn>, excluded: set<Id>,
                                              k: Key)
    requires k in rows && k.card == card.id
    ensures var after := MilestoneReplay(card, slots, rows, ts, excluded);
      after.Keys == rows.Keys && after[k].value == rows[k].value + AllProgress(card, slots, excluded, ts, k)
    decreases |ts|
  {
    if ts != [] {
      AddEntriesSum(card, rows, NewMilestones(card, slots, ts[0].context));
      MilestoneReplaySum(card, slots,
                         if Counts(ts[0], excluded) then AddMilestoneEntries(card, rows,
                             NewMilestones(card, slots, ts[0].context)) else rows,
                         ts[1..], excluded, k);
    }
  }

  lemma NextMilestonesSum(card: Card, range: Range, slots: Table, t: Txn, excluded: set<Id>, k: Key)
    requires k in slots && k.card == card.id
    ensures EntrySum(NextMilestones(card, range, slots, t, excluded), k.rule, k.start)
            == Progress(card, slots, excluded, t, k)
  {
    var stored := EntriesOf(t.record, Milestones);
    var keep := e => !SupersededMilestone(card, range.milestones, slots, e);
    EntrySumKeep(stored, keep, k.rule, k.start);
    EntrySumConcat(Keep(stored, keep), if Counts(t, excluded) then NewMilestones(card, slots, t.context)
                   else [], k.rule, k.start);
  }

  lemma MilestoneUnloadedZero(b: Book, card: Card, range: Range, ts: seq<Txn>, k: Key, id: Id)
    requires TiledMilestones(card) && GoodBook(b, card) && GoodSpans(card, range) && GoodMilestones(b, card, range)
    requires Loads(b, card, range, ts) && id in b.txns && id !in Ids(ts)
    requires k in MilestoneSlots(map[], card, range.milestones)
    ensures RecordSum(b.txns[id].record, Milestones, k) == 0
  {
    var t := b.txns[id];
    var s := SlotSpan(card, range, k);
    if t.card == card.id && t.record.Some? {
      assert t !in ts;
      SameStart(card, k.rule, range.asOf, DayOf(t));
      SameStart(card, k.rule, DayOf(t), DayOf(t));
      forall e | e in t.record.value.milestones
        ensures e.id == k.rule ==> e.start != k.start
      {
        assert DatedMilestones(card, t) && LoadsSpans(range, DayOf(t));
      }
      EntrySumNone(t.record.value.milestones, k.rule, k.start);
    }
  }

  /** The rebuilt window a slot stands for. */
  lemma SlotSpan(card: Card, range: Range, k: Key) returns (s: Span)
    requires TiledMilestones(card) && GoodSpans(card, range) && k in MilestoneSlots(map[], card, range.milestones)
    ensures k.card == card.id && s in range.milestones && s.id == k.rule && s.window.start == k.start
    ensures GoodSpan(card, range.asOf, s) && s.window.start <= range.asOf <= s.window.end
  {
    SlotsAreSpans(map[], card, range.milestones, range.milestones);
    var i :| 0 <= i < |range.milestones| && range.milestones[i].id == k.rule && range.milestones[i].window.start
        == k.start;
    s := range.milestones[i];
    assert GoodSpan(card, range.asOf, s);
    SameStart(card, k.rule, range.asOf, range.asOf);
  }

  lemma {:induction false} ListIsProgress(a: map<Id, Txn>, card: Card, slots: Table, excluded: set<Id>, ts: seq<Txn>,
                                          k: Key)
    requires forall t :: t in ts && t.id in excluded ==> t.id !in a
    requires forall t :: t in ts && t.id !in excluded ==>
               t.id in a && RecordSum(a[t.id].record, Milestones, k) == Progress(card, slots, excluded, t, k)
    ensures ListTotal(a, ts, Milestones, k) == AllProgress(card, slots, excluded, ts, k)
    decreases |ts|
  {
    if ts != [] {
      ListIsProgress(a, card, slots, excluded, ts[1..], k);
    }
  }

  lemma RebuiltProgress(b: Book, card: Card, range: Range, expected: bool, ts: seq<Txn>, excluded: set<Id>, t: Txn,
                        k: Key)
    requires Loads(b, card, range, ts) && t in ts && t.id !in excluded && k.card == card.id
    requires k in MilestoneSlots(map[], card, range.milestones)
    ensures var a := Rebuilt(b, card, range, expected, ts, excluded);
      t.id in a.txns
      && RecordSum(a.txns[t.id].record, Milestones, k)
         == Progress(card, MilestoneSlots(map[], card, range.milestones), excluded, t, k)
  {
    var slots, f := MilestoneSlots(map[], card, range.milestones), ReplayOf(card, range, ts, excluded);
    RebuiltRecord(b, card, range, expected, ts, excluded, t);
    var next := NextRecord(card, range, f, slots, t, excluded);
    CanonicalSum(next, Milestones, k);
    CanonicalSum(Rebuilt(b, card, range, expected, ts, excluded).txns[t.id].record, Milestones, k);
    NextMilestonesSum(card, range, slots, t, excluded, k);
    ToRecordSum(card.id, NextCaps(card, range, f, t, excluded), NextMilestones(card, range, slots, t, excluded),
                EntriesOf(t.record, Fees), Milestones, k);
  }

  lemma MilestoneWritten(b: Book, card: Card, range: Range, expected: bool, ts: seq<Txn>, excluded: set<Id>, k: Key)
    requires GoodSpans(card, range) && GoodMilestones(b, card, range) && TiledMilestones(card)
    requires k in MilestoneSlots(map[], card, range.milestones)
    ensures var slots := MilestoneSlots(map[], card, range.milestones);
      k.card == card.id
      && Value(Rebuilt(b, card, range, expected, ts, excluded).milestones, k) == AllProgress(card, slots, excluded, ts,
          k)
  {
    hide MilestoneSlots, MilestoneReplay, ReplayOf, RecordUpdates, ExpectedUpdates, TiledMilestones, GoodSpans;
    var slots := MilestoneSlots(map[], card, range.milestones);
    var s := SlotSpan(card, range, k);
    SlotsAreSpans(map[], card, range.milestones, range.milestones);
    MilestoneReplaySum(card, slots, slots, ts, excluded, k);
    var rows := MilestoneReplay(card, slots, slots, ts, excluded);
    var scope := InScope(range.milestones, ExistingMilestones(b, card, range));
    assert k in b.milestones ==> HasSpan(range.milestones, k.rule) && OverlapsSpan(range.milestones, k,
        b.milestones[k]);
    var gone := set j | j in scope && j !in rows;
    WrittenValue(b.milestones, scope, rows, gone, k);
  }

  /** Every rebuilt milestone row is the sum of the matching entries over the final records. */
  lemma MilestoneAgreement(b: Book, card: Card, range: Range, expected: bool, ts: seq<Txn>, excluded: set<Id>, k: Key)
    requires TiledMilestones(card) && GoodBook(b, card) && GoodSpans(card, range) && GoodMilestones(b, card, range)
    requires Loads(b, card, range, ts) && k in MilestoneSlots(map[], card, range.milestones)
    ensures var a := Rebuilt(b, card, range, expected, ts, excluded);
      Value(a.milestones, k) == Total(Kept(a, excluded), Milestones, k)
  {
    hide Rebuilt, MilestoneSlots, Loads, GoodBook, GoodSpans, GoodMilestones, TiledMilestones;
    var a, slots := Rebuilt(b, card, range, expected, ts, excluded), MilestoneSlots(map[], card, range.milestones);
    MilestoneWritten(b, card, range, expected, ts, excluded, k);
    LoadedDistinct(b, card, range, ts);
    forall t | t in ts && t.id !in excluded
      ensures t.id in Kept(a, excluded) && RecordSum(a.txns[t.id].record, Milestones, k)
              == Progress(card, slots, excluded, t, k)
    {
      RebuiltProgress(b, card, range, expected, ts, excluded, t, k);
    }
    forall id | id in Kept(a, excluded) && id !in Ids(ts)
      ensures RecordSum(Kept(a, excluded)[id].record, Milestones, k) == 0
    {
      RebuiltKeys(b, card, range, expected, ts, excluded, id);
      RebuiltOther(b, card, range, expected, ts, excluded, id);
      MilestoneUnloadedZero(b, card, range, ts, k, id);
    }
    ListIsProgress(Kept(a, excluded), card, slots, excluded, ts, k);
    TotalOfList(Kept(a, excluded), ts, Milestones, k);
  }

  lemma RebuiltKeys(b: Book, card: Card, range: Range, expected: bool, ts: seq<Txn>, excluded: set<Id>, id: Id)
    requires id in Rebuilt(b, card, range, expected, ts, excluded).txns && GoodBook(b, card)
    ensures id in b.txns && b.txns[id].id == id
  {
  }
}
