/** Rebuild is idempotent: a second rebuild of the same range finds nothing to write. */
module CardIdempotent {
  import opened Basics
  import opened CardRecords
  import opened CardModel
  import opened CardReplay
  import opened CardRange
  import opened CardAgreement

  /** A plan that writes nothing. */
  predicate Nothing(p: Plan) {
    && p.capsChanged == {} && p.capsToDelete == {} && p.milestonesChanged == {} && p.milestonesToDelete == {}
    && p.records == map[] && p.expected == map[]
  }

  // ---- a seed's entries count alike in stored and in sorted order --------------------------------

  lemma SeedSwap(card: Card, rows: Table, e: Entry, f: Entry)
    requires KeyOf(card, e) != KeyOf(card, f)
    ensures SeedRow(card, SeedRow(card, rows, e), f) == SeedRow(card, SeedRow(card, rows, f), e)
  {
  }

  lemma {:induction false} SeedInsert(card: Card, rows: Table, e: Entry, es: seq<Entry>)
    ensures SeedRows(card, rows, InsertEntry(e, es)) == SeedRows(card, SeedRow(card, rows, e), es)
    decreases |es|
  {
    if es == [] || AtMost(e, es[0]) {
      assert ([e] + es)[1..] == es;
    } else {
      SeedSwap(card, rows, e, es[0]);
      SeedInsert(card, SeedRow(card, rows, es[0]), e, es[1..]);
      assert ([es[0]] + InsertEntry(e, es[1..]))[1..] == InsertEntry(e, es[1..]);
    }
  }

  /** The stable sort keeps the order of entries of one row, so it changes no seeded row. */
  lemma {:induction false} SeedSorted(card: Card, rows: Table, es: seq<Entry>)
    ensures SeedRows(card, rows, SortEntries(es)) == SeedRows(card, rows, es)
    decreases |es|
  {
    if es != [] {
      SeedInsert(card, rows, es[0], SortEntries(es[1..]));
      SeedSorted(card, SeedRow(card, rows, es[0]), es[1..]);
    }
  }

  // ---- the second load --------------------------------------------------------------------------

  /** What is loaded again: the updated rows that still count or still have a record. */
  function Survivors(plan: Plan, ts: seq<Txn>): (r: seq<Txn>)
    ensures forall u :: u in r ==> exists t :: t in ts && u == UpdatedTxn(plan, t)
    decreases |ts|
  {
    if ts == [] then []
    else
      var u := UpdatedTxn(plan, ts[0]);
      (if u.record.Some? || Eligible(u) then [u] else []) + Survivors(plan, ts[1..])
  }

  lemma {:induction false} SurvivorsAll(plan: Plan, ts: seq<Txn>)
    ensures forall t :: t in ts && (UpdatedTxn(plan, t).record.Some? || Eligible(t)) ==>
            UpdatedTxn(plan, t) in Survivors(plan, ts)
    ensures Ordered(ts) ==> Ordered(Survivors(plan, ts))
    decreases |ts|
  {
    if ts != [] {
      SurvivorsAll(plan, ts[1..]);
      var u, rest := UpdatedTxn(plan, ts[0]), Survivors(plan, ts[1..]);
      if Ordered(ts) {
        forall v | v in rest
          ensures TimeBefore(u, v)
        {
          var t :| t in ts[1..] && v == UpdatedTxn(plan, t);
          var i :| 0 <= i < |ts[1..]| && ts[1..][i] == t;
          assert TimeBefore(ts[0], ts[i + 1]);
        }
      }
    }
  }

  lemma OrderedTail(ts: seq<Txn>)
    requires Ordered(ts) && ts != []
    ensures Ordered(ts[1..]) && (forall t :: t in ts[1..] ==> TimeBefore(ts[0], t))
    ensures forall t :: t in ts <==> t == ts[0] || t in ts[1..]
  {
  }

  lemma HasMember(ts: seq<Txn>)
    ensures ts == [] || exists t :: t in ts
  {
    assert ts == [] || ts[0] in ts;
  }

  /** Time and id order a set of transactions in one way only. */
  lemma {:induction false} OrderUnique(a: seq<Txn>, b: seq<Txn>)
    requires Ordered(a) && Ordered(b)
    requires forall t :: t in a <==> t in b
    ensures a == b
    decreases |a|
  {
    HasMember(a);
    HasMember(b);
    if a != [] {
      OrderedTail(a);
      OrderedTail(b);
      assert b[0] in a && a[0] in b;
      OrderUnique(a[1..], b[1..]);
    }
  }

  lemma UpdatedKeepsAll(plan: Plan, t: Txn)
    ensures var u := UpdatedTxn(plan, t);
      u.id == t.id && u.card == t.card && u.context == t.context && DayOf(u) == DayOf(t)
      && (Eligible(u) <==> Eligible(t))
    ensures t.id !in plan.records && t.id !in plan.expected ==> UpdatedTxn(plan, t) == t
  {
  }

  lemma SecondLoad(b: Book, card: Card, range: Range, ts: seq<Txn>, a: Book, plan: Plan, again: seq<Txn>)
    requires Loads(b, card, range, ts) && (forall id :: id in b.txns ==> b.txns[id].id == id)
    requires a.txns == map id | id in b.txns :: UpdatedTxn(plan, b.txns[id])
    requires plan.records.Keys <= Ids(ts) && plan.expected.Keys <= Ids(ts)
    requires Loads(a, card, range, again)
    ensures again == Survivors(plan, ts)
  {
    SurvivorsAll(plan, ts);
    hide Survivors, UpdatedTxn, Eligible;
    forall u | u in again
      ensures u in Survivors(plan, ts)
    {
      var t := b.txns[u.id];
      UpdatedKeepsAll(plan, t);
      assert t.id in Ids(ts) ==> t in ts;
    }
    forall u | u in Survivors(plan, ts)
      ensures u in again
    {
      var t :| t in ts && u == UpdatedTxn(plan, t);
      UpdatedKeepsAll(plan, t);
      SurvivorSelected(plan, ts, u);
    }
    OrderUnique(again, Survivors(plan, ts));
  }

  lemma {:induction false} SurvivorSelected(plan: Plan, ts: seq<Txn>, u: Txn)
    requires u in Survivors(plan, ts)
    ensures u.record.Some? || Eligible(u)
    decreases |ts|
  {
    if u in Survivors(plan, ts[1..]) {
      SurvivorSelected(plan, ts[1..], u);
    }
  }

  // ---- the second replay ------------------------------------------------------------------------

  lemma ReplayOneSame(card: Card, caps: CapRange, plan: Plan, r: Replay, t: Txn, excluded: set<Id>)
    requires SeedKept(caps, plan, t, excluded)
    ensures ReplayOne(card, caps, r, UpdatedTxn(plan, t), excluded) == ReplayOne(card, caps, r, t, excluded)
  {
    SeedSorted(card, r.rows, EntriesOf(t.record, Caps));
  }

  /** A seed keeps its cap entries, sorted if its record is rewritten. */
  predicate SeedKept(caps: CapRange, plan: Plan, t: Txn, excluded: set<Id>) {
    Counts(t, excluded) && !Within(caps, t) ==>
      var stored, kept := EntriesOf(t.record, Caps), EntriesOf(UpdatedTxn(plan, t).record, Caps);
      kept == stored || kept == SortEntries(stored)
  }

  lemma {:induction false} ReplaySame(card: Card, caps: CapRange, plan: Plan, r: Replay, ts: seq<Txn>,
                                      excluded: set<Id>)
    requires forall t :: t in ts ==> SeedKept(caps, plan, t, excluded)
    ensures ReplayAll(card, caps, r, Survivors(plan, ts), excluded) == ReplayAll(card, caps, r, ts, excluded)
    decreases |ts|
  {
    if ts != [] {
      hide ReplayOne, SeedKept;
      var t, u, rest := ts[0], UpdatedTxn(plan, ts[0]), Survivors(plan, ts[1..]);
      ReplayOneSame(card, caps, plan, r, t, excluded);
      ReplaySame(card, caps, plan, ReplayOne(card, caps, r, t, excluded), ts[1..], excluded);
      if u.record.Some? || Eligible(u) {
        assert ([u] + rest)[1..] == rest;
      } else {
        NotCounting(card, caps, r, t, excluded);
        assert [] + rest == rest;
      }
    }
  }

  lemma NotCounting(card: Card, caps: CapRange, r: Replay, t: Txn, excluded: set<Id>)
    requires !Eligible(t)
    ensures ReplayOne(card, caps, r, t, excluded) == r
  {
  }

  lemma {:induction false} MilestonesSame(card: Card, slots: Table, plan: Plan, rows: Table, ts: seq<Txn>,
                                          excluded: set<Id>)
    ensures MilestoneReplay(card, slots, rows, Survivors(plan, ts), excluded) == MilestoneReplay(card, slots, rows, ts,
        excluded)
    decreases |ts|
  {
    if ts != [] {
      hide NewMilestones, AddMilestoneEntries;
      var u, rest := UpdatedTxn(plan, ts[0]), Survivors(plan, ts[1..]);
      MilestonesSame(card, slots, plan,
                     if Counts(ts[0], excluded) then AddMilestoneEntries(card, rows,
                         NewMilestones(card, slots, ts[0].context)) else rows,
                     ts[1..], excluded);
      if u.record.Some? || Eligible(u) {
        assert ([u] + rest)[1..] == rest;
      } else {
        assert [] + rest == rest;
      }
    }
  }

  // ---- records ------------------------------------------------------------------------------------

  ghost predicate MovedInRows(card: Card, r: Replay) {
    forall id, e :: id in r.moved && e in r.moved[id] ==> KeyOf(card, e) in r.rows
  }

  lemma {:induction false} ReplayMovedInRows(card: Card, caps: CapRange, r: Replay, ts: seq<Txn>, excluded: set<Id>)
    requires MovedInRows(card, r)
    ensures MovedInRows(card, ReplayAll(card, caps, r, ts, excluded))
    decreases |ts|
  {
    if ts != [] {
      hide Compute;
      var out := Compute(card, ts[0].context, r.rows);
      MoveRowsKeys(card, r.rows, out.moves);
      SeedRowsKeys(card, r.rows, EntriesOf(ts[0].record, Caps));
      ReplayMovedInRows(card, caps, ReplayOne(card, caps, r, ts[0], excluded), ts[1..], excluded);
    }
  }

  lemma SectionAgain(stored: seq<Entry>, moved: seq<Entry>, keep: Entry -> bool, next: seq<Entry>)
    requires forall e :: e in moved ==> !keep(e)
    requires next == Keep(stored, keep) + moved
    ensures SortEntries(Keep(SortEntries(next), keep) + moved) == SortEntries(next)
  {
    ReplaceTwice(stored, moved, keep);
  }

  lemma CapsAgain(card: Card, range: Range, replay: Replay, t: Txn, u: Txn, excluded: set<Id>)
    requires MovedInRows(card, replay) && u.id == t.id && Counts(u, excluded) == Counts(t, excluded)
    requires EntriesOf(u.record, Caps) == SortEntries(NextCaps(card, range, replay, t, excluded))
    ensures SortEntries(NextCaps(card, range, replay, u, excluded)) == EntriesOf(u.record, Caps)
  {
    var next := NextCaps(card, range, replay, t, excluded);
    if range.caps.None? || (t.id !in replay.moved && Counts(t, excluded)) {
      SortTwice(next);
    } else {
      var caps := range.caps.value;
      var keep := e => !SupersededCap(card, caps, replay.rows, e);
      SectionAgain(EntriesOf(t.record, Caps), if Counts(t, excluded) then replay.moved[t.id] else [], keep, next);
    }
  }

  lemma MilestonesAgain(card: Card, range: Range, slots: Table, t: Txn, u: Txn, excluded: set<Id>)
    requires u.id == t.id && u.context == t.context && Counts(u, excluded) == Counts(t, excluded)
    requires EntriesOf(u.record, Milestones) == SortEntries(NextMilestones(card, range, slots, t, excluded))
    ensures SortEntries(NextMilestones(card, range, slots, u, excluded)) == EntriesOf(u.record, Milestones)
  {
    var next := NextMilestones(card, range, slots, t, excluded);
    if slots == map[] {
      SortTwice(next);
    } else {
      var keep := e => !SupersededMilestone(card, range.milestones, slots, e);
      SectionAgain(EntriesOf(t.record, Milestones), if Counts(t, excluded) then NewMilestones(card, slots, t.context)
                   else [], keep, next);
    }
  }

  lemma ToRecordSame(card: Id, a: seq<Entry>, b: seq<Entry>, c: seq<Entry>, d: seq<Entry>, e: seq<Entry>, f: seq<Entry>)
    requires SortEntries(a) == SortEntries(d) && SortEntries(b) == SortEntries(e) && SortEntries(c) == SortEntries(f)
    ensures ToRecord(card, a, b, c) == ToRecord(card, d, e, f)
  {
  }

  /** Planning the record of a transaction that already carries its planned record plans it again. */
  lemma RecordAgain(card: Card, range: Range, replay: Replay, slots: Table, t: Txn, u: Txn, excluded: set<Id>)
    requires MovedInRows(card, replay)
    requires u.id == t.id && u.context == t.context && Counts(u, excluded) == Counts(t, excluded)
    requires u.record == NextRecord(card, range, replay, slots, t, excluded)
    ensures NextRecord(card, range, replay, slots, u, excluded) == u.record
  {
    var c, m, f := NextCaps(card, range, replay, t, excluded), NextMilestones(card, range, slots, t, excluded),
    EntriesOf(t.record, Fees);
    hide NextCaps, NextMilestones;
    assert SortEntries([]) == [];
    CapsAgain(card, range, replay, t, u, excluded);
    MilestonesAgain(card, range, slots, t, u, excluded);
    SortTwice(f);
    ToRecordSame(card.id, NextCaps(card, range, replay, u, excluded), NextMilestones(card, range, slots, u, excluded),
                 EntriesOf(u.record, Fees), c, m, f);
  }

  lemma {:induction false} NoRecordUpdates(card: Card, range: Range, replay: Replay, slots: Table, ts: seq<Txn>,
                                           excluded: set<Id>)
    requires forall t :: t in ts && t.id !in excluded ==>
             Canonical(NextRecord(card, range, replay, slots, t, excluded)) == Canonical(t.record)
    ensures RecordUpdates(card, range, replay, slots, ts, excluded) == map[]
    decreases |ts|
  {
    if ts != [] {
      NoRecordUpdates(card, range, replay, slots, ts[1..], excluded);
    }
  }

  lemma {:induction false} NoExpectedUpdates(replay: Replay, ts: seq<Txn>)
    requires forall t :: t in ts && t.id in replay.figures ==> replay.figures[t.id] == t.expected
    ensures ExpectedUpdates(replay, ts) == map[]
    decreases |ts|
  {
    if ts != [] {
      NoExpectedUpdates(replay, ts[1..]);
    }
  }

  // ---- rows ---------------------------------------------------------------------------------------

  function Scoped(table: Table, scope: (Key, Row) -> bool): Table {
    map k | k in table && scope(k, table[k]) :: table[k]
  }

  /** After the writes, the stored rows in scope are the rebuilt positive ones. */
  lemma TableSettled(table: Table, rows: Table, moved: set<Key>, scope: (Key, Row) -> bool, gone: Key -> bool,
                     after: Table)
    requires var existing := Scoped(table, scope);
      && moved == (set k | k in existing && k !in rows && gone(k))
      && after == Written(table, Positive(rows), Changed(rows, existing), moved + Emptied(rows, existing))
    requires forall k :: k in rows && rows[k].value > 0 ==> scope(k, rows[k])
    ensures var again := Scoped(after, scope);
      && Changed(rows, again) == {} && Emptied(rows, again) == {}
      && (set k | k in again && k !in rows && gone(k)) == {}
  {
  }

  lemma CapsSettled(b: Book, card: Card, range: Range, rows: Table, after: Table, a: Book)
    requires range.caps.Some? ==> DatedRows(card, range.caps.value, rows)
    requires range.caps.None? ==> rows == map[]
    requires var existing := ExistingCaps(b, card, range);
      after == Written(b.caps, Positive(rows), Changed(rows, existing),
                       Moved(card, range, rows, existing) + Emptied(rows, existing))
    requires a.caps == after
    ensures var again := ExistingCaps(a, card, range);
      Changed(rows, again) == {} && Moved(card, range, rows, again) + Emptied(rows, again) == {}
  {
    if range.caps.Some? {
      var caps := range.caps.value;
      var scope := (k: Key, row: Row) => k.card == card.id && k.start <= caps.end && row.end >= caps.start;
      CapsScoped(b, card, range);
      CapsScoped(a, card, range);
      forall k | k in rows
        ensures scope(k, rows[k])
      {
        assert DatedRow(card, caps, k, rows[k]);
      }
      MovedScoped(card, range, rows, b.caps);
      MovedScoped(card, range, rows, after);
      hide Written, Changed, Emptied, Positive, DatedRows, ExistingCaps, Moved, Scoped;
      TableSettled(b.caps, rows, Moved(card, range, rows, Scoped(b.caps, scope)), scope,
                   (k: Key) => k.rule in card.caps, after);
    }
  }

  lemma CapsScoped(b: Book, card: Card, range: Range)
    requires range.caps.Some?
    ensures ExistingCaps(b, card, range)
         == Scoped(b.caps, (k: Key, row: Row) => k.card == card.id && k.start <= range.caps.value.end
                   && row.end >= range.caps.value.start)
  {
  }

  lemma MovedScoped(card: Card, range: Range, rows: Table, table: Table)
    requires range.caps.Some?
    ensures var scope := (k: Key, row: Row) => k.card == card.id && k.start <= range.caps.value.end
            && row.end >= range.caps.value.start;
      var existing, gone := Scoped(table, scope), (k: Key) => k.rule in card.caps;
      Moved(card, range, rows, existing) == set k | k in existing && k !in rows && gone(k)
  {
  }

  /** `row` is the row at `k` of one of the windows, whatever it counts. */
  predicate SpanAt(spans: seq<Span>, k: Key, row: Row) {
    exists i :: 0 <= i < |spans| && spans[i].id == k.rule && spans[i].window.start == k.start
      && row.end == spans[i].window.end && row.mark == MilestoneMark(spans[i].window.approximate)
  }

  /** A rebuilt milestone row is that of a rebuilt window. */
  ghost predicate SpanRows(card: Card, spans: seq<Span>, rows: Table) {
    forall k :: k in rows ==> k.card == card.id && SpanAt(spans, k, rows[k])
  }

  lemma {:induction false} MilestoneSlotsSpan(rows: Table, card: Card, spans: seq<Span>, all: seq<Span>)
    requires SpanRows(card, all, rows)
    requires forall s :: s in spans ==> s in all
    ensures SpanRows(card, all, MilestoneSlots(rows, card, spans))
    decreases |spans|
  {
    if spans != [] {
      assert spans[0] in all;
      var w := spans[0].window;
      MilestoneSlotsSpan(rows[Key(card.id, spans[0].id, w.start) := Row(w.end, 0, MilestoneMark(w.approximate))], card,
                         spans[1..], all);
    }
  }

  lemma {:induction false} AddEntriesSpan(card: Card, spans: seq<Span>, rows: Table, es: seq<Entry>)
    requires SpanRows(card, spans, rows)
    ensures SpanRows(card, spans, AddMilestoneEntries(card, rows, es))
    decreases |es|
  {
    if es != [] {
      var k := KeyOf(card, es[0]);
      AddEntriesSpan(card, spans, if k in rows then rows[k := rows[k].(value := rows[k].value + es[0].delta)] else rows,
                     es[1..]);
    }
  }

  lemma {:induction false} MilestoneReplaySpan(card: Card, spans: seq<Span>, slots: Table, rows: Table, ts: seq<Txn>,
                                               excluded: set<Id>)
    requires SpanRows(card, spans, rows)
    ensures SpanRows(card, spans, MilestoneReplay(card, slots, rows, ts, excluded))
    decreases |ts|
  {
    if ts != [] {
      AddEntriesSpan(card, spans, rows, NewMilestones(card, slots, ts[0].context));
      MilestoneReplaySpan(card, spans, slots,
                          if Counts(ts[0], excluded) then AddMilestoneEntries(card, rows,
                              NewMilestones(card, slots, ts[0].context)) else rows,
                          ts[1..], excluded);
    }
  }

  function Scope(b: Book, card: Card, range: Range): Table {
    InScope(range.milestones, ExistingMilestones(b, card, range))
  }

  lemma MilestonesSettled(b: Book, card: Card, range: Range, rows: Table, a: Book)
    requires SpanRows(card, range.milestones, rows)
    requires forall s :: s in range.milestones ==> s.window.start <= s.window.end
    requires var scope := Scope(b, card, range);
      var gone := set k | k in scope && k !in rows;
      a.milestones == Written(b.milestones, Positive(rows), Changed(rows, scope), gone + Emptied(rows, scope))
    ensures var again := Scope(a, card, range);
      var gone := set k | k in again && k !in rows;
      Changed(rows, again) == {} && gone + Emptied(rows, again) == {}
  {
    var spans := range.milestones;
    var scope := (k: Key, row: Row) => k.card == card.id && HasSpan(spans, k.rule) && OverlapsSpan(spans, k, row);
    var gone := set k | k in Scope(b, card, range) && k !in rows;
    ScopeIsScoped(b, card, range);
    ScopeIsScoped(a, card, range);
    forall k | k in rows
      ensures scope(k, rows[k])
    {
      SpanRowInScope(spans, k, rows[k]);
    }
    hide Scope, HasSpan, OverlapsSpan, Written, Changed, Emptied, Positive, SpanRows;
    TableSettled(b.milestones, rows, gone, scope, k => true, a.milestones);
  }

  lemma SpanRowInScope(spans: seq<Span>, k: Key, row: Row)
    requires SpanAt(spans, k, row) && forall s :: s in spans ==> s.window.start <= s.window.end
    ensures HasSpan(spans, k.rule) && OverlapsSpan(spans, k, row)
  {
  }

  lemma ScopeIsScoped(b: Book, card: Card, range: Range)
    ensures var spans := range.milestones;
      var scope := (k: Key, row: Row) => k.card == card.id && HasSpan(spans, k.rule) && OverlapsSpan(spans, k, row);
      Scope(b, card, range) == Scoped(b.milestones, scope)
  {
  }

  // ---- the theorem --------------------------------------------------------------------------------

  lemma {:induction false} ReplayDated(card: Card, caps: CapRange, r: Replay, ts: seq<Txn>, excluded: set<Id>)
    requires Sound(card) && DatedRows(card, caps, r.rows)
    requires forall t :: t in ts ==> DatedTxn(card, t)
    ensures DatedRows(card, caps, ReplayAll(card, caps, r, ts, excluded).rows)
    decreases |ts|
  {
    if ts != [] {
      ReplayOneDated(card, caps, r, ts[0], excluded);
      ReplayDated(card, caps, ReplayOne(card, caps, r, ts[0], excluded), ts[1..], excluded);
    }
  }

  /** A rebuild of `card` over `range`, from well-formed rows. */
  ghost predicate Rebuildable(b: Book, card: Card, range: Range, ts: seq<Txn>) {
    && Sound(card) && GoodBook(b, card) && GoodRange(range) && Loads(b, card, range, ts)
    && (forall s :: s in range.milestones ==> s.window.start <= s.window.end)
  }

  function FirstPlan(b: Book, card: Card, range: Range, expected: bool, ts: seq<Txn>, excluded: set<Id>): Plan {
    PlanOf(card, range, ts, expected, excluded, ExistingCaps(b, card, range), ExistingMilestones(b, card, range))
  }

  /** What the plan holds for one loaded transaction. */
  lemma PlanAt(b: Book, card: Card, range: Range, expected: bool, ts: seq<Txn>, excluded: set<Id>)
    requires Loads(b, card, range, ts)
    ensures var plan, f := FirstPlan(b, card, range, expected, ts, excluded), ReplayOf(card, range, ts, excluded);
      var slots := MilestoneSlots(map[], card, range.milestones);
      && plan.records.Keys <= Ids(ts) && plan.expected.Keys <= Ids(ts)
      && (forall t :: t in ts ==>
            var next := NextRecord(card, range, f, slots, t, excluded);
            if t.id in excluded || Canonical(next) == Canonical(t.record) then t.id !in plan.records
            else t.id in plan.records && plan.records[t.id] == next)
      && (expected ==> forall t :: t in ts && t.id in f.figures ==> UpdatedTxn(plan, t).expected == f.figures[t.id])
  {
    hide NextRecord, ReplayOf, MilestoneSlots, MilestoneReplay;
    var f, slots := ReplayOf(card, range, ts, excluded), MilestoneSlots(map[], card, range.milestones);
    LoadedDistinct(b, card, range, ts);
    RecordUpdatesAt(card, range, f, slots, ts, excluded);
    ExpectedUpdatesAt(f, ts);
  }

  lemma {:induction false} ExpectedUpdatesAt(f: Replay, ts: seq<Txn>)
    requires DistinctIds(ts)
    ensures var u := ExpectedUpdates(f, ts);
      && u.Keys <= Ids(ts)
      && forall t :: t in ts && t.id in f.figures ==> if t.id in u then u[t.id] == f.figures[t.id]
      else f.figures[t.id] == t.expected
    decreases |ts|
  {
    if ts != [] {
      TailIds(ts);
      ExpectedUpdatesAt(f, ts[1..]);
      forall t | t in ts && t != ts[0]
        ensures t in ts[1..] && t.id != ts[0].id
      {
        assert t in ts[1..];
        assert t.id in Ids(ts[1..]);
      }
    }
  }

  /** The second load replays to the same rows, entries and figures. */
  lemma SecondReplay(b: Book, card: Card, range: Range, expected: bool, ts: seq<Txn>, excluded: set<Id>)
    requires Loads(b, card, range, ts)
    ensures var plan := FirstPlan(b, card, range, expected, ts, excluded);
      ReplayOf(card, range, Survivors(plan, ts), excluded) == ReplayOf(card, range, ts, excluded)
  {
    if range.caps.Some? {
      var plan, f := FirstPlan(b, card, range, expected, ts, excluded), ReplayOf(card, range, ts, excluded);
      var caps := range.caps.value;
      var slots := MilestoneSlots(map[], card, range.milestones);
      hide FirstPlan, PlanOf, MilestoneSlots, NextMilestones, RecordUpdates;
      PlanAt(b, card, range, expected, ts, excluded);
      LoadedDistinct(b, card, range, ts);
      MovedIds(card, caps, Replay(Slots(card, range), map[], map[]), ts, excluded);
      forall t | t in ts
        ensures SeedKept(caps, plan, t, excluded)
      {
        if Counts(t, excluded) && !Within(caps, t) && t.id in plan.records {
          assert NextCaps(card, range, f, t, excluded) == EntriesOf(t.record, Caps);
          assert SortEntries([]) == [];
        }
      }
      ReplaySame(card, caps, plan, Replay(Slots(card, range), map[], map[]), ts, excluded);
    }
  }

  /** Nothing in the second load's records is out of date. */
  lemma SecondRecords(b: Book, card: Card, range: Range, expected: bool, ts: seq<Txn>, excluded: set<Id>)
    requires Loads(b, card, range, ts)
    ensures var plan, f := FirstPlan(b, card, range, expected, ts, excluded), ReplayOf(card, range, ts, excluded);
      && RecordUpdates(card, range, f, MilestoneSlots(map[], card, range.milestones), Survivors(plan, ts), excluded)
         == map[]
      && (expected ==> ExpectedUpdates(f, Survivors(plan, ts)) == map[])
  {
    var plan, f := FirstPlan(b, card, range, expected, ts, excluded), ReplayOf(card, range, ts, excluded);
    var slots := MilestoneSlots(map[], card, range.milestones);
    PlanAt(b, card, range, expected, ts, excluded);
    FinalMovedInRows(card, range, ts, excluded);
    hide FirstPlan, ReplayOf, MilestoneSlots, RecordUpdates, Survivors, MovedInRows, NextRecord, Canonical;
    forall u | u in Survivors(plan, ts)
      ensures u.id !in excluded ==> Canonical(NextRecord(card, range, f, slots, u, excluded)) == Canonical(u.record)
      ensures expected && u.id in f.figures ==> f.figures[u.id] == u.expected
    {
      var t :| t in ts && u == UpdatedTxn(plan, t);
      if t.id in plan.records {
        RecordAgain(card, range, f, slots, t, u, excluded);
      } else {
        NextRecordSame(card, range, f, slots, t, u, excluded);
      }
    }
    NoRecordUpdates(card, range, f, slots, Survivors(plan, ts), excluded);
    if expected {
      NoExpectedUpdates(f, Survivors(plan, ts));
    }
  }

  lemma NextRecordSame(card: Card, range: Range, f: Replay, slots: Table, t: Txn, u: Txn, excluded: set<Id>)
    requires u.id == t.id && u.context == t.context && Counts(u, excluded) == Counts(t, excluded)
             && u.record == t.record
    ensures NextRecord(card, range, f, slots, u, excluded) == NextRecord(card, range, f, slots, t, excluded)
  {
  }

  lemma FinalMovedInRows(card: Card, range: Range, ts: seq<Txn>, excluded: set<Id>)
    ensures MovedInRows(card, ReplayOf(card, range, ts, excluded))
  {
    if range.caps.Some? {
      ReplayMovedInRows(card, range.caps.value, Replay(Slots(card, range), map[], map[]), ts, excluded);
    }
  }

  lemma FinalRowsDated(b: Book, card: Card, range: Range, ts: seq<Txn>, excluded: set<Id>)
    requires Rebuildable(b, card, range, ts)
    ensures range.caps.Some? ==> DatedRows(card, range.caps.value, ReplayOf(card, range, ts, excluded).rows)
  {
    if range.caps.Some? {
      SlotsDated(card, range);
      ReplayDated(card, range.caps.value, Replay(Slots(card, range), map[], map[]), ts, excluded);
    }
  }

  lemma FinalMilestoneRows(card: Card, range: Range, ts: seq<Txn>, excluded: set<Id>)
    ensures var slots := MilestoneSlots(map[], card, range.milestones);
      SpanRows(card, range.milestones, MilestoneReplay(card, slots, slots, ts, excluded))
  {
    MilestoneSlotsSpan(map[], card, range.milestones, range.milestones);
    var slots := MilestoneSlots(map[], card, range.milestones);
    MilestoneReplaySpan(card, range.milestones, slots, slots, ts, excluded);
  }

  lemma RebuiltParts(b: Book, card: Card, range: Range, expected: bool, ts: seq<Txn>, excluded: set<Id>)
    ensures var a, plan := Rebuilt(b, card, range, expected, ts, excluded),
    FirstPlan(b, card, range, expected, ts, excluded);
      var rows, slots := ReplayOf(card, range, ts, excluded).rows, MilestoneSlots(map[], card, range.milestones);
      var counted := MilestoneReplay(card, slots, slots, ts, excluded);
      var caps, scope := ExistingCaps(b, card, range), Scope(b, card, range);
      var gone := set k | k in scope && k !in counted;
      && a.caps == Written(b.caps, Positive(rows), Changed(rows, caps), Moved(card, range, rows, caps) + Emptied(rows,
          caps))
      && a.milestones == Written(b.milestones, Positive(counted), Changed(counted, scope),
                                 gone + Emptied(counted, scope))
      && a.txns == map id | id in b.txns :: UpdatedTxn(plan, b.txns[id])
  {
  }

  /** A plan over rows, records and figures that are all settled. */
  lemma SettledPlan(a: Book, card: Card, range: Range, expected: bool, again: seq<Txn>, excluded: set<Id>)
    requires var f, slots := ReplayOf(card, range, again, excluded), MilestoneSlots(map[], card, range.milestones);
      var rows, counted := f.rows, MilestoneReplay(card, slots, slots, again, excluded);
      var caps, scope := ExistingCaps(a, card, range), Scope(a, card, range);
      var gone := set k | k in scope && k !in counted;
      && Changed(rows, caps) == {} && Moved(card, range, rows, caps) + Emptied(rows, caps) == {}
      && Changed(counted, scope) == {} && gone + Emptied(counted, scope) == {}
      && RecordUpdates(card, range, f, slots, again, excluded) == map[]
      && (expected ==> ExpectedUpdates(f, again) == map[])
    ensures Nothing(FirstPlan(a, card, range, expected, again, excluded))
  {
  }

  /** Planning again on the state an applied plan left gives an empty plan: no row to write or to
      delete, no record and no expected value to update. */
  lemma RebuildIdempotent(b: Book, card: Card, range: Range, expected: bool, ts: seq<Txn>, excluded: set<Id>,
                          again: seq<Txn>)
    requires Rebuildable(b, card, range, ts)
    requires Loads(Rebuilt(b, card, range, expected, ts, excluded), card, range, again)
    ensures Nothing(FirstPlan(Rebuilt(b, card, range, expected, ts, excluded), card, range, expected, again, excluded))
  {
    hide Rebuilt, FirstPlan, Scope, MilestoneReplay, RecordUpdates, ExpectedUpdates, MilestoneSlots, SpanRows, Loads,
    DatedRows, Nothing,
      Written, Changed, Emptied, Moved, Positive, ReplayOf, ExistingCaps, UpdatedTxn;
    var a, plan := Rebuilt(b, card, range, expected, ts, excluded), FirstPlan(b, card, range, expected, ts, excluded);
    var f, slots := ReplayOf(card, range, ts, excluded), MilestoneSlots(map[], card, range.milestones);
    var counted := MilestoneReplay(card, slots, slots, ts, excluded);
    PlanAt(b, card, range, expected, ts, excluded);
    RebuiltParts(b, card, range, expected, ts, excluded);
    SecondLoad(b, card, range, ts, a, plan, again);
    SecondReplay(b, card, range, expected, ts, excluded);
    SecondRecords(b, card, range, expected, ts, excluded);
    MilestonesSame(card, slots, plan, slots, ts, excluded);
    FinalRowsDated(b, card, range, ts, excluded);
    FinalMilestoneRows(card, range, ts, excluded);
    NoCapRows(card, range, ts, excluded);
    CapsSettled(b, card, range, f.rows, a.caps, a);
    MilestonesSettled(b, card, range, counted, a);
    SettledPlan(a, card, range, expected, again, excluded);
  }

  lemma NoCapRows(card: Card, range: Range, ts: seq<Txn>, excluded: set<Id>)
    ensures range.caps.None? ==> ReplayOf(card, range, ts, excluded).rows == map[]
  {
  }

  /** So the second rebuild leaves the store as it is. */
  lemma RebuildTwice(b: Book, card: Card, range: Range, expected: bool, ts: seq<Txn>, excluded: set<Id>,
                     again: seq<Txn>)
    requires Rebuildable(b, card, range, ts)
    requires Loads(Rebuilt(b, card, range, expected, ts, excluded), card, range, again)
    ensures var once := Rebuilt(b, card, range, expected, ts, excluded);
      Rebuilt(once, card, range, expected, again, excluded) == once
  {
    hide PlanOf;
    RebuildIdempotent(b, card, range, expected, ts, excluded, again);
    NothingWritten(Rebuilt(b, card, range, expected, ts, excluded),
                   FirstPlan(Rebuilt(b, card, range, expected, ts, excluded), card, range, expected, again, excluded));
  }

  lemma NothingWritten(b: Book, plan: Plan)
    requires Nothing(plan)
    ensures ApplyPlan(b, plan) == b
  {
    assert forall id :: id in b.txns ==> UpdatedTxn(plan, b.txns[id]) == b.txns[id];
    assert UpdatedLedger(b.ledger, map[]) == b.ledger;
  }
}
