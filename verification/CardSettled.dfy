/** A rebuild right after a card's history was recorded live has nothing to write, wherever its replay
    window lies: exactly unless it drops a later spend's seed. */
module CardSettled {
  import opened Basics
  import opened Cycles
  import opened CardRecords
  import opened CardModel
  import opened CardLive
  import opened CardReplay
  import opened CardRange
  import opened CardAgreement
  import opened CardMilestones
  import opened CardIdempotent
  import opened CardRefinement
  import opened CardHistory
  import opened CardRuns
  import opened CardSums

  // ---- what live recording leaves on a spend ---------------------------------------------------

  /** The spend's record is the one computed against `before`. */
  ghost predicate RecordedFrom(card: Card, before: Table, u: Txn) {
    var out := Compute(card, u.context, before);
    && Eligible(u)
    && u.record == ToRecord(card.id, Entries(out.moves), Entries(MilestoneEntries(card, u.context, out.excluded)),
                            Entries(FeeEntries(card, u.context, out.excluded)))
  }

  ghost predicate RecordedLive(card: Card, u: Txn) {
    exists before :: RecordedFrom(card, before, u)
  }

  lemma AppliedFrom(b: Book, card: Card, h: Txn, threshold: Id -> int)
    requires Clean(b) && Fresh(b, h)
    ensures var a, out := Applied(b, card, h.id, threshold), Compute(card, h.context, b.caps);
      && h.id in a.txns && RecordedFrom(card, b.caps, a.txns[h.id])
      && a.milestones == AddMilestones(b.milestones, card.id, MilestoneEntries(card, h.context, out.excluded))
  {
  }

  /** What is left of the history after its first spend, and what that spend ends as. */
  lemma FirstRecorded(b: Book, card: Card, hs: seq<Txn>, threshold: Id -> int)
    requires Clean(b) && hs != [] && DistinctIds(hs) && Fresh(b, hs[0]) && forall h :: h in hs ==> Fresh(b, h)
    ensures var a, live := Applied(b, card, hs[0].id, threshold), Run(b, Applies(card, hs), threshold);
      && Clean(a) && live == Run(a, Applies(card, hs[1..]), threshold) && (forall h :: h in hs[1..] ==> Fresh(a, h))
      && DistinctIds(hs[1..]) && hs[0].id in a.txns && hs[0].id in live.txns
      && live.txns[hs[0].id] == a.txns[hs[0].id]
  {
    var h, a := hs[0], Applied(b, card, hs[0].id, threshold);
    assert Applies(card, hs)[1..] == Applies(card, hs[1..]) && Applies(card, hs)[0] == Op.Apply(card, h.id);
    TailIds(hs);
    AppliedParts(b, card, h, threshold);
    StillFresh(b, a, hs);
    hide Applied, Clean;
    LiveOthers(a, card, hs[1..], threshold, h.id);
  }

  lemma {:induction false} LiveRecords(b: Book, card: Card, hs: seq<Txn>, threshold: Id -> int)
    requires Clean(b) && DistinctIds(hs) && forall h :: h in hs ==> Fresh(b, h)
    ensures var live := Run(b, Applies(card, hs), threshold);
      forall h :: h in hs ==> h.id in live.txns && RecordedLive(card, live.txns[h.id])
    decreases |hs|
  {
    if hs != [] {
      assert hs[0] in hs && Fresh(b, hs[0]);
      FirstRecorded(b, card, hs, threshold);
      AppliedFrom(b, card, hs[0], threshold);
      hide Applied, Clean, Fresh, RecordedFrom;
      LiveRecords(Applied(b, card, hs[0].id, threshold), card, hs[1..], threshold);
      assert forall h :: h in hs <==> h == hs[0] || h in hs[1..];
    }
  }

  // ---- what it leaves in the counters -------------------------------------------------------------

  /** What a live counter is: the sum over the final records. */
  lemma {:induction false} LiveTotals(b: Book, card: Card, hs: seq<Txn>, threshold: Id -> int, section: Section, k: Key)
    requires Clean(b) && DistinctIds(hs) && forall h :: h in hs ==> Fresh(b, h)
    ensures var live := Run(b, Applies(card, hs), threshold);
      Value(TableOf(live, section), k) == Value(TableOf(b, section), k) + ListTotal(live.txns, hs, section, k)
    decreases |hs|
  {
    if hs != [] {
      assert hs[0] in hs && Fresh(b, hs[0]);
      FirstRecorded(b, card, hs, threshold);
      RecordedSum(b, card, hs[0].id, threshold, section, k);
      hide Recorded, Clean, Fresh;
      LiveTotals(Applied(b, card, hs[0].id, threshold), card, hs[1..], threshold, section, k);
    }
  }

  lemma LiveAgrees(b: Book, card: Card, hs: seq<Txn>, threshold: Id -> int, section: Section, k: Key)
    requires History(b, card, hs) && k.card == card.id
    requires GoodBook(Run(b, Applies(card, hs), threshold), card)
    ensures var live := Run(b, Applies(card, hs), threshold);
      Value(TableOf(live, section), k) == Total(live.txns, section, k)
  {
    var live := Run(b, Applies(card, hs), threshold);
    LiveTotals(b, card, hs, threshold, section, k);
    LiveKeys(b, card, hs, threshold);
    hide Run;
    forall id | id in live.txns && id !in Ids(hs)
      ensures RecordSum(live.txns[id].record, section, k) == 0
    {
      LiveOthers(b, card, hs, threshold, id);
      assert b.txns[id] !in hs;
    }
    TotalOfList(live.txns, hs, section, k);
  }

  /** The engine's caps count in one kind and native amount each, exclude as planned, and the rebuild
      restores that amount from the kind. */
  ghost predicate Uniform(card: Card, units: Units) {
    && Sound(card) && TiledMilestones(card) && OneExclusion(card) && FixedUnits(card, units)
    && forall id :: id in card.caps ==> card.nativeAmount(id, units.kind(id)) == Some(units.amount(id))
  }

  /** Every cap row is the row of one of the card's windows, and counts something. */
  ghost predicate LiveCaps(card: Card, units: Units, rows: Table) {
    PlainRows(card, units, rows) && Positive(rows) == rows
  }

  /** A milestone row that counts something, of the window of some day. */
  ghost predicate LiveMilestone(card: Card, k: Key, row: Row) {
    && k.card == card.id && row.value > 0 && (exists m :: m in card.milestones && m.id == k.rule)
    && exists day :: MilestoneOf(card, k, row, day)
  }

  predicate MilestoneOf(card: Card, k: Key, row: Row, day: int) {
    && InSpan(day) && row.mark.MilestoneMark?
    && card.windows.milestone(k.rule, day) == Some(Window(k.start, row.end, row.mark.approximate))
  }

  ghost predicate LiveMilestones(card: Card, rows: Table) {
    forall k :: k in rows ==> LiveMilestone(card, k, rows[k])
  }

  ghost predicate MilestoneMove(card: Card, day: int, m: Move) {
    && m.entry.delta > 0 && (exists rule :: rule in card.milestones && rule.id == m.entry.id)
    && card.windows.milestone(m.entry.id, day) == Some(Window(m.entry.start, m.entry.end, m.approximate))
  }

  lemma {:induction false} MilestoneMovesOf(card: Card, rules: seq<Rule>, ctx: Context)
    requires ctx.amount > 0 && forall m :: m in rules ==> m in card.milestones
    ensures forall i :: 0 <= i < |MilestoneMoves(card, rules, ctx)| ==>
      MilestoneMove(card, IstDay(ctx.occurred), MilestoneMoves(card, rules, ctx)[i])
  {
    if rules != [] {
      MilestoneMovesOf(card, rules[1..], ctx);
      assert rules[0] in card.milestones;
    }
  }

  lemma {:induction false} AddLiveMilestones(card: Card, t: Table, moves: seq<Move>, day: int)
    requires LiveMilestones(card, t) && InSpan(day)
    requires forall i :: 0 <= i < |moves| ==> MilestoneMove(card, day, moves[i])
    ensures LiveMilestones(card, AddMilestones(t, card.id, moves))
    decreases |moves|
  {
    if moves != [] {
      var m, k := moves[0], Key(card.id, moves[0].entry.id, moves[0].entry.start);
      var after := AddRow(t, k, m.entry.end, m.entry.delta, MilestoneMark(m.approximate));
      assert MilestoneMove(card, day, m);
      assert k in t ==> LiveMilestone(card, k, t[k]);
      assert MilestoneOf(card, k, after[k], day);
      assert LiveMilestone(card, k, after[k]);
      hide MilestoneMove, LiveMilestone, MilestoneOf;
      AddLiveMilestones(card, after, moves[1..], day);
    }
  }

  lemma StepCaps(b: Book, card: Card, units: Units, h: Txn, threshold: Id -> int)
    requires Uniform(card, units) && Clean(b) && Fresh(b, h) && LiveCaps(card, units, b.caps)
    ensures LiveCaps(card, units, Applied(b, card, h.id, threshold).caps)
  {
    var out := Compute(card, h.context, b.caps);
    AppliedParts(b, card, h, threshold);
    ComputedPlain(card, units, h.context, b.caps);
    hide Applied, Compute, AddCaps, PlainMoves, PlainRows;
    MovesSame(card, units, b.caps, out.moves, DayOf(h));
  }

  lemma StepMilestones(b: Book, card: Card, h: Txn, threshold: Id -> int)
    requires Clean(b) && Fresh(b, h) && InSpan(DayOf(h)) && LiveMilestones(card, b.milestones)
    ensures LiveMilestones(card, Applied(b, card, h.id, threshold).milestones)
  {
    var out := Compute(card, h.context, b.caps);
    AppliedFrom(b, card, h, threshold);
    hide Applied, Compute, LiveMilestones, MilestoneMove, Clean;
    if h.context.amount > 0 {
      MilestoneMovesOf(card, card.milestones, h.context);
    }
    AddLiveMilestones(card, b.milestones, MilestoneEntries(card, h.context, out.excluded), DayOf(h));
  }

  lemma {:induction false} LiveTables(b: Book, card: Card, units: Units, hs: seq<Txn>, threshold: Id -> int)
    requires Uniform(card, units) && Clean(b) && DistinctIds(hs)
    requires forall h :: h in hs ==> Fresh(b, h) && InSpan(DayOf(h))
    requires LiveCaps(card, units, b.caps) && LiveMilestones(card, b.milestones)
    ensures var live := Run(b, Applies(card, hs), threshold);
      LiveCaps(card, units, live.caps) && LiveMilestones(card, live.milestones)
    decreases |hs|
  {
    if hs != [] {
      assert hs[0] in hs && Fresh(b, hs[0]);
      FirstRecorded(b, card, hs, threshold);
      StepCaps(b, card, units, hs[0], threshold);
      StepMilestones(b, card, hs[0], threshold);
      hide Applied, Clean, Fresh, LiveCaps, LiveMilestones, Uniform;
      LiveTables(Applied(b, card, hs[0].id, threshold), card, units, hs[1..], threshold);
    }
  }

  // ---- the rows of the replay --------------------------------------------------------------------------

  /** Stored cap entries as live recording makes them. */
  ghost predicate PlainEntries(card: Card, units: Units, day: int, es: seq<Entry>) {
    forall e :: e in es ==>
      e.id in card.caps && e.delta > 0 && e.kind == Some(units.kind(e.id)) && DatedCap(card, day, e)
  }

  lemma RecordedPlain(card: Card, units: Units, u: Txn)
    requires Uniform(card, units) && RecordedLive(card, u)
    ensures PlainEntries(card, units, DayOf(u), EntriesOf(u.record, Caps))
  {
    var before :| RecordedFrom(card, before, u);
    var moves := Compute(card, u.context, before).moves;
    ComputedPlain(card, units, u.context, before);
    SortMembers(Entries(moves));
    hide Compute, DatedCap;
    forall e | e in Entries(moves)
      ensures e.id in card.caps && e.delta > 0 && e.kind == Some(units.kind(e.id)) && DatedCap(card, DayOf(u), e)
    {
      EntryOfMove(moves, e);
    }
  }

  lemma SeedPlain(card: Card, units: Units, rows: Table, e: Entry)
    requires Uniform(card, units) && PlainRows(card, units, rows)
    requires e.id in card.caps && e.delta > 0 && e.kind == Some(units.kind(e.id))
    ensures PlainRows(card, units, SeedRow(card, rows, e))
  {
    hide Sound, TiledMilestones, OneExclusion, FixedUnits;
    var k := KeyOf(card, e);
    assert k in rows ==> Plain(card, units, k, rows[k]);
  }

  lemma {:induction false} SeedsPlain(card: Card, units: Units, rows: Table, es: seq<Entry>, day: int)
    requires Uniform(card, units) && PlainRows(card, units, rows) && PlainEntries(card, units, day, es)
    ensures PlainRows(card, units, SeedRows(card, rows, es))
    decreases |es|
  {
    if es != [] {
      SeedPlain(card, units, rows, es[0]);
      hide Uniform, PlainRows;
      SeedsPlain(card, units, SeedRow(card, rows, es[0]), es[1..], day);
    }
  }

  lemma {:induction false} ReplayPlain(card: Card, units: Units, caps: CapRange, r: Replay, ts: seq<Txn>)
    requires Uniform(card, units) && PlainRows(card, units, r.rows)
    requires forall t :: t in ts ==> RecordedLive(card, t)
    ensures PlainRows(card, units, ReplayAll(card, caps, r, ts, {}).rows)
    decreases |ts|
  {
    if ts != [] {
      var t := ts[0];
      var out := Compute(card, t.context, r.rows);
      assert Sound(card) && FixedUnits(card, units);
      ComputedPlain(card, units, t.context, r.rows);
      RecordedPlain(card, units, t);
      hide Compute, Uniform, PlainMoves, PlainRows, PlainEntries, RecordedLive;
      MovesSame(card, units, r.rows, out.moves, DayOf(t));
      SeedsPlain(card, units, r.rows, EntriesOf(t.record, Caps), DayOf(t));
      ReplayPlain(card, units, caps, ReplayOne(card, caps, r, t, {}), ts[1..]);
    }
  }

  // ---- cap rows ------------------------------------------------------------------------------------------

  /** Live rows and rebuilt rows of equal value: none is to be written. */
  lemma RowsUnchanged(live: Book, card: Card, units: Units, range: Range, rows: Table)
    requires range.caps.Some? && LiveCaps(card, units, live.caps) && PlainRows(card, units, rows)
    requires DatedRows(card, range.caps.value, rows) && SameRows(live.caps, rows)
    ensures Changed(rows, ExistingCaps(live, card, range)) == {} && Emptied(rows, ExistingCaps(live, card, range)) == {}
  {
    var existing := ExistingCaps(live, card, range);
    forall k | k in rows
      ensures if k in existing then rows[k].value > 0 && existing[k] == rows[k] else rows[k].value == 0
    {
      assert DatedRow(card, range.caps.value, k, rows[k]) && Plain(card, units, k, rows[k]);
      assert k in live.caps ==> Plain(card, units, k, live.caps[k]) && k in Positive(live.caps);
    }
  }

  /** Where no row is rebuilt, a live counter holds what later spends have recorded. */
  lemma UnbuiltLive(b: Book, card: Card, range: Range, hs: seq<Txn>, ts: seq<Txn>, threshold: Id -> int, k: Key)
    requires History(b, card, hs) && Rebuilding(Run(b, Applies(card, hs), threshold), card, range, ts)
    requires forall u :: u in ts && Within(range.caps.value, u) ==> SameAsLive(ReplayOf(card, range, ts, {}), u)
    requires forall u :: u in ts ==> Eligible(u)
    requires Overlapping(card, range, k) && k !in RowsOf(card, range, ts, {})
    ensures Value(Run(b, Applies(card, hs), threshold).caps, k) == LateSum(range.caps.value, ts, {}, k)
  {
    var live, caps, f := Run(b, Applies(card, hs), threshold), range.caps.value, ReplayOf(card, range, ts, {});
    assert GoodBook(live, card);
    LiveAgrees(b, card, hs, threshold, Caps, k);
    LoadedDistinct(live, card, range, ts);
    hide Run, ReplayOf, History, Contribution, Overlapping;
    forall u | u in ts
      ensures RecordSum(u.record, Caps, k) == Contribution(card, caps, f, {}, u, k) == LateEntry(caps, u, {}, k)
      ensures u.id in live.txns && live.txns[u.id] == u
    {
      UnbuiltContribution(live, card, range, ts, {}, u, k);
      LiveContribution(live, card, range, ts, f, u, k);
    }
    OverlappingMeets(card, range, k);
    forall id | id in live.txns && id !in Ids(ts)
      ensures RecordSum(live.txns[id].record, Caps, k) == 0
    {
      UnloadedZero(live, card, range, ts, k, id);
    }
    hide Rebuilding;
    TotalOfList(live.txns, ts, Caps, k);
    ListIsContributions(live.txns, card, caps, f, {}, ts, k);
    ContributionsLate(card, caps, f, {}, ts, k);
  }

  lemma OverlappingMeets(card: Card, range: Range, k: Key)
    requires range.caps.Some? && Overlapping(card, range, k)
    ensures k.card == card.id && k.rule in card.caps
    ensures var w := card.windows.cap(k.rule, k.start);
      w.start == k.start && Meets(w, range.caps.value.start, range.caps.value.end)
  {
  }

  lemma LiveContribution(live: Book, card: Card, range: Range, ts: seq<Txn>, f: Replay, u: Txn, k: Key)
    requires range.caps.Some? && Loads(live, card, range, ts) && GoodBook(live, card) && u in ts && Eligible(u)
    requires (Within(range.caps.value, u) ==> SameAsLive(f, u)) && k.card == card.id
    ensures RecordSum(u.record, Caps, k) == Contribution(card, range.caps.value, f, {}, u, k)
  {
    if Within(range.caps.value, u) {
      EntrySumSort(f.moved[u.id], k.rule, k.start);
    }
  }

  lemma {:induction false} LateSumPositive(caps: CapRange, ts: seq<Txn>, k: Key)
    ensures LateSum(caps, ts, {}, k) > 0 <==> exists t :: t in ts && LateEntry(caps, t, {}, k) > 0
    decreases |ts|
  {
    if ts != [] {
      LateSumPositive(caps, ts[1..], k);
      assert forall t :: t in ts <==> t == ts[0] || t in ts[1..];
    }
  }

  lemma LateDropped(card: Card, range: Range, ts: seq<Txn>, k: Key)
    requires range.caps.Some? && DistinctIds(ts) && k !in RowsOf(card, range, ts, {})
    ensures LateSum(range.caps.value, ts, {}, k) > 0 <==> SeedDropped(card, range, ts, {}, k)
  {
    RowsBuiltIff(card, range, ts, {}, k);
    hide RowsOf, Slots, CountsInto;
    LateSumPositive(range.caps.value, ts, k);
    assert forall t :: LateEntry(range.caps.value, t, {}, k) > 0 <==>
        Counts(t, {}) && DayOf(t) > range.caps.value.end && EntrySum(EntriesOf(t.record, Caps), k.rule, k.start) > 0;
  }

  /** A live row of an overlapping period is the card's, and the rebuild finds it. */
  lemma LiveRowFound(live: Book, card: Card, units: Units, range: Range, rows: Table, k: Key)
    requires range.caps.Some? && LiveCaps(card, units, live.caps)
    ensures k in Moved(card, range, rows, ExistingCaps(live, card, range))
       <==> Overlapping(card, range, k) && k !in rows && Value(live.caps, k) > 0
  {
    assert k in live.caps ==> Plain(card, units, k, live.caps[k]) && k in Positive(live.caps);
  }

  lemma MovedAt(b: Book, card: Card, units: Units, range: Range, hs: seq<Txn>, ts: seq<Txn>, threshold: Id -> int,
                k: Key)
    requires History(b, card, hs) && Rebuilding(Run(b, Applies(card, hs), threshold), card, range, ts)
    requires LiveCaps(card, units, Run(b, Applies(card, hs), threshold).caps)
    requires forall u :: u in ts && Within(range.caps.value, u) ==> SameAsLive(ReplayOf(card, range, ts, {}), u)
    requires forall u :: u in ts ==> Eligible(u)
    ensures var live, rows := Run(b, Applies(card, hs), threshold), RowsOf(card, range, ts, {});
      k in Moved(card, range, rows, ExistingCaps(live, card, range))
      <==> Overlapping(card, range, k) && SeedDropped(card, range, ts, {}, k)
  {
    var live, rows := Run(b, Applies(card, hs), threshold), RowsOf(card, range, ts, {});
    LiveRowFound(live, card, units, range, rows, k);
    LoadedDistinct(live, card, range, ts);
    if Overlapping(card, range, k) {
      RowsBuiltIff(card, range, ts, {}, k);
    }
    hide Slots, CountsInto;
    hide Run, Overlapping, Moved, LiveCaps, Rebuilding, History, Eligible, SameAsLive;
    if Overlapping(card, range, k) && k !in rows {
      UnbuiltLive(b, card, range, hs, ts, threshold, k);
      LateDropped(card, range, ts, k);
    }
  }

  // ---- milestone rows ------------------------------------------------------------------------------------

  /** A live record's milestone entries, whatever counters it was priced against. */
  lemma RecordedMilestones(card: Card, u: Txn)
    requires OneExclusion(card) && RecordedLive(card, u)
    ensures EntriesOf(u.record, Milestones)
         == SortEntries(Entries(MilestoneEntries(card, u.context, card.engine.plan(u.context).excluded)))
    ensures u.record.Some? ==> u.record.value.card == card.id
  {
    var before :| RecordedFrom(card, before, u);
    ExcludedAsPlanned(card, u.context, before);
    assert SortEntries([]) == [];
  }

  lemma RecordedProgress(card: Card, slots: Table, u: Txn, k: Key)
    requires OneExclusion(card) && RecordedLive(card, u) && Eligible(u) && k in slots && k.card == card.id
    ensures RecordSum(u.record, Milestones, k) == Progress(card, slots, {}, u, k)
  {
    RecordedMilestones(card, u);
    var all := Entries(MilestoneEntries(card, u.context, card.engine.plan(u.context).excluded));
    EntrySumSort(all, k.rule, k.start);
    hide RecordedLive, MilestoneEntries;
    KeepInSlotsSum(card, slots, all, k);
  }

  /** A rebuilt milestone row counts what the live one does. */
  lemma MilestoneValue(b: Book, card: Card, range: Range, hs: seq<Txn>, ts: seq<Txn>, threshold: Id -> int, k: Key)
    requires History(b, card, hs) && TiledMilestones(card) && OneExclusion(card) && GoodSpans(card, range)
    requires var live := Run(b, Applies(card, hs), threshold);
      GoodBook(live, card) && GoodMilestones(live, card, range) && Loads(live, card, range, ts)
    requires forall u :: u in ts ==> RecordedLive(card, u) && Eligible(u)
    requires k in MilestoneSlots(map[], card, range.milestones)
    ensures var slots := MilestoneSlots(map[], card, range.milestones);
      var counted := MilestoneReplay(card, slots, slots, ts, {});
      k in counted && counted[k].value == Value(Run(b, Applies(card, hs), threshold).milestones, k)
  {
    var live, slots := Run(b, Applies(card, hs), threshold), MilestoneSlots(map[], card, range.milestones);
    hide Run, MilestoneSlots, RecordedLive, History;
    var s := SlotSpan(card, range, k);
    SlotsAreSpans(map[], card, range.milestones, range.milestones);
    LiveAgrees(b, card, hs, threshold, Milestones, k);
    LoadedDistinct(live, card, range, ts);
    MilestoneReplaySum(card, slots, slots, ts, {}, k);
    forall u | u in ts
      ensures u.id in live.txns && live.txns[u.id] == u
      ensures RecordSum(u.record, Milestones, k) == Progress(card, slots, {}, u, k)
    {
      RecordedProgress(card, slots, u, k);
    }
    forall id | id in live.txns && id !in Ids(ts)
      ensures RecordSum(live.txns[id].record, Milestones, k) == 0
    {
      MilestoneUnloadedZero(live, card, range, ts, k, id);
    }
    hide GoodBook, GoodSpans, GoodMilestones, TiledMilestones, Loads, Progress;
    TotalOfList(live.txns, ts, Milestones, k);
    ListIsProgress(live.txns, card, slots, {}, ts, k);
  }

  /** A live milestone row that meets a rebuilt window is that window's row. */
  lemma LiveRowOfSpan(card: Card, range: Range, s: Span, k: Key, row: Row)
    requires TiledMilestones(card) && GoodSpans(card, range) && s in range.milestones && LiveMilestone(card, k, row)
    requires s.id == k.rule && k.start <= s.window.end && s.window.start <= row.end
    ensures k.start == s.window.start && row.end == s.window.end && row.mark == MilestoneMark(s.window.approximate)
    ensures k in MilestoneSlots(map[], card, range.milestones)
  {
    var day :| MilestoneOf(card, k, row, day);
    MeetingSpan(card, range, s, day);
    SlotHeld(map[], card, range.milestones, s);
  }

  lemma MilestoneRowSame(live: Book, card: Card, range: Range, counted: Table, k: Key)
    requires TiledMilestones(card) && GoodSpans(card, range) && LiveMilestones(card, live.milestones)
    requires SpanRows(card, range.milestones, counted) && k in counted && counted[k].value == Value(live.milestones, k)
    requires forall s :: s in range.milestones ==> s.window.start <= s.window.end
    ensures var scope := Scope(live, card, range);
      if k in scope then counted[k].value > 0 && scope[k] == counted[k] else counted[k].value == 0
  {
    hide TiledMilestones, GoodSpans, LiveMilestone;
    if k in live.milestones {
      assert LiveMilestone(card, k, live.milestones[k]);
      var i :| 0 <= i < |range.milestones| && range.milestones[i].id == k.rule
               && range.milestones[i].window.start == k.start && counted[k].end == range.milestones[i].window.end
               && counted[k].mark == MilestoneMark(range.milestones[i].window.approximate);
      assert range.milestones[i] in range.milestones;
      LiveRowForward(card, k, live.milestones[k]);
      LiveRowOfSpan(card, range, range.milestones[i], k, live.milestones[k]);
      assert HasSpan(range.milestones, k.rule) && OverlapsSpan(range.milestones, k, live.milestones[k]);
    }
  }

  lemma LiveRowForward(card: Card, k: Key, row: Row)
    requires TiledMilestones(card) && LiveMilestone(card, k, row)
    ensures k.start <= row.end && row.value > 0
  {
    var day :| MilestoneOf(card, k, row, day);
    SameStart(card, k.rule, day, day);
  }

  lemma MilestonesUnchanged(live: Book, card: Card, range: Range, counted: Table)
    requires TiledMilestones(card) && GoodSpans(card, range) && LiveMilestones(card, live.milestones)
    requires SpanRows(card, range.milestones, counted) && counted.Keys
             == MilestoneSlots(map[], card, range.milestones).Keys
    requires forall k :: k in counted ==> counted[k].value == Value(live.milestones, k)
    requires forall s :: s in range.milestones ==> s.window.start <= s.window.end
    ensures var scope := Scope(live, card, range);
      Changed(counted, scope) == {} && (set k | k in scope && k !in counted) + Emptied(counted, scope) == {}
  {
    var scope := Scope(live, card, range);
    hide TiledMilestones, GoodSpans, MilestoneSlots, SpanRows;
    forall k | k in counted
      ensures if k in scope then counted[k].value > 0 && scope[k] == counted[k] else counted[k].value == 0
    {
      MilestoneRowSame(live, card, range, counted, k);
    }
    forall k | k in scope
      ensures k in counted
    {
      assert LiveMilestone(card, k, live.milestones[k]);
      var i :| 0 <= i < |range.milestones| && range.milestones[i].id == k.rule
               && k.start <= range.milestones[i].window.end && live.milestones[k].end
                   >= range.milestones[i].window.start;
      LiveRowOfSpan(card, range, range.milestones[i], k, live.milestones[k]);
    }
  }

  // ---- records ---------------------------------------------------------------------------------------------

  lemma CapsStay(card: Card, range: Range, f: Replay, u: Txn)
    requires MovedInRows(card, f) && Eligible(u) && EntriesOf(u.record, Caps) == SortEntries(EntriesOf(u.record, Caps))
    requires u.id in f.moved ==> range.caps.Some? && SameAsLive(f, u)
    ensures SortEntries(NextCaps(card, range, f, u, {})) == EntriesOf(u.record, Caps)
  {
    if u.id in f.moved {
      var keep := e => !SupersededCap(card, range.caps.value, f.rows, e);
      SortMembers(f.moved[u.id]);
      KeepNone(EntriesOf(u.record, Caps), keep);
      assert [] + f.moved[u.id] == f.moved[u.id];
    }
  }

  /** Of a live record's entries exactly those of rebuilt windows are superseded. */
  lemma SupersededIsSlot(card: Card, range: Range, u: Txn, e: Entry)
    requires TiledMilestones(card) && GoodSpans(card, range) && DatedMilestone(card, DayOf(u), e)
    ensures var slots := MilestoneSlots(map[], card, range.milestones);
      SupersededMilestone(card, range.milestones, slots, e) <==> KeyOf(card, e) in slots
  {
    hide TiledMilestones, GoodSpans, MilestoneSlots, DatedMilestone;
    if KeyOf(card, e) !in MilestoneSlots(map[], card, range.milestones) {
      forall i | 0 <= i < |range.milestones| && range.milestones[i].id == e.id
        ensures !(e.start <= range.milestones[i].window.end && e.end >= range.milestones[i].window.start)
      {
        OffSpan(card, range, DayOf(u), e, range.milestones[i]);
      }
    }
  }

  lemma MilestonesStay(card: Card, range: Range, u: Txn)
    requires TiledMilestones(card) && OneExclusion(card) && GoodSpans(card, range) && RecordedLive(card, u)
    requires Eligible(u)
    ensures SortEntries(NextMilestones(card, range, MilestoneSlots(map[], card, range.milestones), u, {}))
         == EntriesOf(u.record, Milestones)
  {
    var slots, stored := MilestoneSlots(map[], card, range.milestones), EntriesOf(u.record, Milestones);
    var excluded := card.engine.plan(u.context).excluded;
    var all := Entries(MilestoneEntries(card, u.context, excluded));
    RecordedMilestones(card, u);
    SortTwice(all);
    if slots != map[] {
      var last := (id: Id, start: int) => Key(card.id, id, start) in slots;
      var stays, moves := (e: Entry) => !last(e.id, e.start), (e: Entry) => last(e.id, e.start);
      LiveEntriesDated(card, u);
      hide RecordedLive, MilestoneEntries, DatedMilestone, TiledMilestones, GoodSpans, MilestoneSlots;
      forall e | e in stored
        ensures !SupersededMilestone(card, range.milestones, slots, e) <==> stays(e)
      {
        SupersededIsSlot(card, range, u, e);
      }
      KeepSame(stored, e => !SupersededMilestone(card, range.milestones, slots, e), stays);
      KeepSort(all, stays);
      KeepSame(all, e => KeyOf(card, e) in slots, moves);
      SortAppend(Keep(all, stays), Keep(all, moves));
      SortSplit(all, last);
    }
  }

  lemma LiveEntriesDated(card: Card, u: Txn)
    requires OneExclusion(card) && RecordedLive(card, u)
    ensures forall e :: e in EntriesOf(u.record, Milestones) ==> DatedMilestone(card, DayOf(u), e)
  {
    RecordedMilestones(card, u);
    SortMembers(Entries(MilestoneEntries(card, u.context, card.engine.plan(u.context).excluded)));
    MilestoneMovesDated(card, card.milestones, u.context);
  }

  /** The rebuild plans for a spend the record it has. */
  lemma RecordStays(card: Card, range: Range, f: Replay, u: Txn)
    requires TiledMilestones(card) && OneExclusion(card) && GoodSpans(card, range) && RecordedLive(card, u)
    requires Eligible(u) && MovedInRows(card, f) && (u.id in f.moved ==> range.caps.Some? && SameAsLive(f, u))
    ensures NextRecord(card, range, f, MilestoneSlots(map[], card, range.milestones), u, {}) == u.record
  {
    var slots := MilestoneSlots(map[], card, range.milestones);
    var before :| RecordedFrom(card, before, u);
    var out := Compute(card, u.context, before);
    var c, m, fs := Entries(out.moves), Entries(MilestoneEntries(card, u.context, out.excluded)),
    Entries(FeeEntries(card, u.context, out.excluded));
    assert SortEntries([]) == [];
    SortTwice(c);
    SortTwice(m);
    SortTwice(fs);
    CapsStay(card, range, f, u);
    MilestonesStay(card, range, u);
    hide Compute, MilestoneEntries, FeeEntries, NextCaps, NextMilestones, MilestoneSlots, RecordedLive;
    ToRecordSame(card.id, NextCaps(card, range, f, u, {}), NextMilestones(card, range, slots, u, {}),
                 EntriesOf(u.record, Fees), c, m, fs);
  }

  // ---- the theorem -------------------------------------------------------------------------------------------

  /** What a rebuild right after a live history works on. */
  ghost predicate AfterHistory(b: Book, card: Card, units: Units, range: Range, hs: seq<Txn>, ts: seq<Txn>,
                               threshold: Id -> int) {
    var live := Run(b, Applies(card, hs), threshold);
    && History(b, card, hs) && Uniform(card, units)
    && Rebuildable(live, card, range, ts) && (range.caps.Some? ==> Rebuilding(live, card, range, ts))
    && GoodSpans(card, range) && GoodMilestones(live, card, range)
  }

  lemma LoadedLive(b: Book, card: Card, range: Range, hs: seq<Txn>, ts: seq<Txn>, threshold: Id -> int)
    requires OwnCaps(card) && History(b, card, hs) && Loads(Run(b, Applies(card, hs), threshold), card, range, ts)
    ensures forall u :: u in ts ==> RecordedLive(card, u) && Eligible(u)
  {
    var live := Run(b, Applies(card, hs), threshold);
    HistoryLoads(b, card, range, hs, ts, threshold);
    LiveIds(b, card, hs, threshold);
    LiveRecords(b, card, hs, threshold);
    LoadedFromOrdered(live, card, range, hs);
  }

  lemma HistoryTables(b: Book, card: Card, units: Units, hs: seq<Txn>, threshold: Id -> int)
    requires Uniform(card, units) && History(b, card, hs)
    ensures var live := Run(b, Applies(card, hs), threshold);
      LiveCaps(card, units, live.caps) && LiveMilestones(card, live.milestones)
  {
    hide Run, Uniform;
    LiveTables(b, card, units, hs, threshold);
  }

  /** The replay gives every spend it moves what live recording gave it. */
  lemma MovedAsLive(b: Book, card: Card, units: Units, range: Range, hs: seq<Txn>, ts: seq<Txn>, threshold: Id -> int)
    requires AfterHistory(b, card, units, range, hs, ts, threshold)
    ensures var f := ReplayOf(card, range, ts, {});
      && MovedInRows(card, f)
      && forall u :: u in ts ==>
           && (u.id in f.moved ==> range.caps.Some? && SameAsLive(f, u))
           && (u.id in f.figures ==> f.figures[u.id] == u.expected)
           && (range.caps.Some? && Within(range.caps.value, u) ==> SameAsLive(f, u))
  {
    var live := Run(b, Applies(card, hs), threshold);
    hide Run, History, Uniform, GoodMilestones, GoodSpans;
    FinalMovedInRows(card, range, ts, {});
    if range.caps.Some? {
      RebuildMatchesHistory(b, card, range, hs, ts, threshold);
      LoadedDistinct(live, card, range, ts);
      MovedIds(card, range.caps.value, Replay(Slots(card, range), map[], map[]), ts, {});
    }
  }

  lemma CapRowsUnchanged(b: Book, card: Card, units: Units, range: Range, hs: seq<Txn>, ts: seq<Txn>,
                         threshold: Id -> int)
    requires AfterHistory(b, card, units, range, hs, ts, threshold)
    requires forall u :: u in ts ==> RecordedLive(card, u)
    ensures var live, rows := Run(b, Applies(card, hs), threshold), RowsOf(card, range, ts, {});
      Changed(rows, ExistingCaps(live, card, range)) == {} && Emptied(rows, ExistingCaps(live, card, range)) == {}
  {
    var live := Run(b, Applies(card, hs), threshold);
    hide Run, Slots, History, RecordedLive, GoodMilestones, GoodSpans;
    FinalRowsDated(live, card, range, ts, {});
    if range.caps.Some? {
      RebuildMatchesHistory(b, card, range, hs, ts, threshold);
      HistoryTables(b, card, units, hs, threshold);
      SlotsPlain(card, units, range);
      ReplayPlain(card, units, range.caps.value, Replay(Slots(card, range), map[], map[]), ts);
      hide ReplayOf, LiveCaps, PlainRows, Rebuildable, Rebuilding, DatedRows, Uniform;
      RowsUnchanged(live, card, units, range, RowsOf(card, range, ts, {}));
    }
  }

  /** The rebuild deletes a live row exactly where it drops a seed. */
  lemma NothingMovedIff(b: Book, card: Card, units: Units, range: Range, hs: seq<Txn>, ts: seq<Txn>,
                        threshold: Id -> int)
    requires AfterHistory(b, card, units, range, hs, ts, threshold)
    requires forall u :: u in ts ==> Eligible(u)
    ensures var live, rows := Run(b, Applies(card, hs), threshold), RowsOf(card, range, ts, {});
      Moved(card, range, rows, ExistingCaps(live, card, range)) == {} <==> DropsNoSeed(card, range, ts, {})
  {
    var live, rows := Run(b, Applies(card, hs), threshold), RowsOf(card, range, ts, {});
    MovedAsLive(b, card, units, range, hs, ts, threshold);
    HistoryTables(b, card, units, hs, threshold);
    hide Run, Slots, History, GoodMilestones, GoodSpans, LiveCaps, LiveMilestones, Rebuildable, Rebuilding, Uniform,
    RowsOf, ReplayOf, Overlapping, SeedDropped, SameAsLive, Eligible, MovedInRows;
    if range.caps.Some? {
      forall k
        ensures k in Moved(card, range, rows, ExistingCaps(live, card, range))
           <==> Overlapping(card, range, k) && SeedDropped(card, range, ts, {}, k)
      {
        MovedAt(b, card, units, range, hs, ts, threshold, k);
      }
    }
  }

  lemma MilestoneRowsUnchanged(b: Book, card: Card, units: Units, range: Range, hs: seq<Txn>, ts: seq<Txn>,
                               threshold: Id -> int)
    requires AfterHistory(b, card, units, range, hs, ts, threshold)
    requires forall u :: u in ts ==> RecordedLive(card, u) && Eligible(u)
    ensures var live, slots := Run(b, Applies(card, hs), threshold), MilestoneSlots(map[], card, range.milestones);
      var counted, scope := MilestoneReplay(card, slots, slots, ts, {}), Scope(live, card, range);
      Changed(counted, scope) == {} && (set k | k in scope && k !in counted) + Emptied(counted, scope) == {}
  {
    var live, slots := Run(b, Applies(card, hs), threshold), MilestoneSlots(map[], card, range.milestones);
    var counted := MilestoneReplay(card, slots, slots, ts, {});
    HistoryTables(b, card, units, hs, threshold);
    hide Run, MilestoneReplay, MilestoneSlots, History, GoodMilestones, GoodSpans, LiveCaps, LiveMilestones, Rebuilding,
    RecordedLive, Eligible, TiledMilestones, OneExclusion;
    MilestoneReplayKeys(card, slots, slots, ts, {});
    FinalMilestoneRows(card, range, ts, {});
    forall k | k in counted
      ensures counted[k].value == Value(live.milestones, k)
    {
      MilestoneValue(b, card, range, hs, ts, threshold, k);
    }
    MilestonesUnchanged(live, card, range, counted);
  }

  /** No record and no figure of a loaded spend changes. */
  lemma NothingUpdated(b: Book, card: Card, units: Units, range: Range, hs: seq<Txn>, ts: seq<Txn>,
                       threshold: Id -> int)
    requires AfterHistory(b, card, units, range, hs, ts, threshold)
    requires forall u :: u in ts ==> RecordedLive(card, u) && Eligible(u)
    ensures var f, slots := ReplayOf(card, range, ts, {}), MilestoneSlots(map[], card, range.milestones);
      RecordUpdates(card, range, f, slots, ts, {}) == map[] && ExpectedUpdates(f, ts) == map[]
  {
    var f, slots := ReplayOf(card, range, ts, {}), MilestoneSlots(map[], card, range.milestones);
    MovedAsLive(b, card, units, range, hs, ts, threshold);
    hide ReplayOf, MilestoneSlots, Run, History, GoodMilestones, GoodSpans, Rebuildable, Rebuilding, RecordedLive,
    NextRecord, Eligible, MovedInRows, SameAsLive, TiledMilestones, OneExclusion;
    forall u | u in ts
      ensures Canonical(NextRecord(card, range, f, slots, u, {})) == Canonical(u.record)
    {
      RecordStays(card, range, f, u);
    }
    NoRecordUpdates(card, range, f, slots, ts, {});
    NoExpectedUpdates(f, ts);
  }

  lemma PlanIsNothing(live: Book, card: Card, range: Range, expected: bool, ts: seq<Txn>)
    requires var f, slots := ReplayOf(card, range, ts, {}), MilestoneSlots(map[], card, range.milestones);
      var counted, scope := MilestoneReplay(card, slots, slots, ts, {}), Scope(live, card, range);
      && Changed(f.rows, ExistingCaps(live, card, range)) == {}
      && Emptied(f.rows, ExistingCaps(live, card, range)) == {}
      && Changed(counted, scope) == {} && (set k | k in scope && k !in counted) + Emptied(counted, scope) == {}
      && RecordUpdates(card, range, f, slots, ts, {}) == map[] && ExpectedUpdates(f, ts) == map[]
    ensures Nothing(FirstPlan(live, card, range, expected, ts, {}))
       <==> Moved(card, range, ReplayOf(card, range, ts, {}).rows, ExistingCaps(live, card, range)) == {}
  {
  }

  /** A card's whole history recorded live, spend by spend in order, and then a rebuild over any
      range: it plans no row to write or delete, no record and no figure, exactly unless it drops
      the seed of a spend after its replay window. */
  lemma RebuildSettled(b: Book, card: Card, units: Units, range: Range, expected: bool, hs: seq<Txn>, ts: seq<Txn>,
                       threshold: Id -> int)
    requires AfterHistory(b, card, units, range, hs, ts, threshold)
    ensures Nothing(FirstPlan(Run(b, Applies(card, hs), threshold), card, range, expected, ts, {}))
       <==> DropsNoSeed(card, range, ts, {})
  {
    LoadedLive(b, card, range, hs, ts, threshold);
    hide AfterHistory, Run, RecordedLive, Eligible, MilestoneReplay, MilestoneSlots, ReplayOf, DropsNoSeed, Moved,
    Changed, Emptied, Nothing, FirstPlan, ExistingCaps, Scope;
    CapRowsUnchanged(b, card, units, range, hs, ts, threshold);
    NothingMovedIff(b, card, units, range, hs, ts, threshold);
    MilestoneRowsUnchanged(b, card, units, range, hs, ts, threshold);
    NothingUpdated(b, card, units, range, hs, ts, threshold);
    PlanIsNothing(Run(b, Applies(card, hs), threshold), card, range, expected, ts);
  }

  // ---- any request ---------------------------------------------------------------------------------------------

  lemma {:induction false} LiveGood(b: Book, cards: Cards, c: Id, hs: seq<Txn>, threshold: Id -> int)
    requires GoodCards(cards) && Good(b, cards, threshold) && DistinctIds(hs)
    requires forall h :: h in hs ==> Fresh(b, h) && h.card == c
    ensures Good(Run(b, Applies(cards(c), hs), threshold), cards, threshold)
    decreases |hs|
  {
    if hs != [] {
      assert hs[0] in hs && Fresh(b, hs[0]) && Clean(b);
      FirstRecorded(b, cards(c), hs, threshold);
      RecordedGood(b, cards, hs[0].id, threshold);
      hide Recorded, Good, GoodCards, Fresh, Clean;
      LiveGood(Applied(b, cards(c), hs[0].id, threshold), cards, c, hs[1..], threshold);
    }
  }

  /** The history's spends are all that counts for the card afterwards. */
  lemma LiveCounts(b: Book, card: Card, hs: seq<Txn>, threshold: Id -> int, id: Id)
    requires OwnCaps(card) && History(b, card, hs)
    requires var live := Run(b, Applies(card, hs), threshold);
      id in live.txns && live.txns[id].card == card.id && Eligible(live.txns[id])
    ensures exists h :: h in hs && DayOf(h) == DayOf(Run(b, Applies(card, hs), threshold).txns[id])
  {
    LiveKeys(b, card, hs, threshold);
    LiveIds(b, card, hs, threshold);
    if id !in Ids(hs) {
      LiveOthers(b, card, hs, threshold, id);
      assert false;
    }
    var h :| h in hs && h.id == id;
    assert DayOf(h) == DayOf(Run(b, Applies(card, hs), threshold).txns[id]);
  }

  lemma LatestSettled(b: Book, card: Card, req: Request, hs: seq<Txn>, ts: seq<Txn>, threshold: Id -> int)
    requires OwnCaps(card) && History(b, card, hs) && forall h :: h in hs ==> DayOf(h) <= req.asOf
    requires Loads(Run(b, Applies(card, hs), threshold), card, RangeOf(card, req), ts)
    ensures DropsNoSeed(card, RangeOf(card, req), ts, {})
  {
    var live := Run(b, Applies(card, hs), threshold);
    forall id | id in live.txns && live.txns[id].card == card.id && Counts(live.txns[id], {})
      ensures DayOf(live.txns[id]) <= req.asOf
    {
      LiveCounts(b, card, hs, threshold, id);
    }
    hide Run, RangeOf, DropsNoSeed, History;
    LatestDropsNothing(live, card, req, ts, {});
  }

  /** So for every request over the card's own range, and with no condition when the request is as of
      the last spend's day or later: the store is then left as it is. */
  lemma RebuildAfterHistory(b: Book, cards: Cards, c: Id, units: Units, openedOn: Option<int>, req: Request,
                            hs: seq<Txn>, ts: seq<Txn>, threshold: Id -> int)
    requires GoodCards(cards) && Good(b, cards, threshold) && History(b, cards(c), hs) && Uniform(cards(c), units)
    requires Rebuilds(Run(b, Applies(cards(c), hs), threshold), cards(c), openedOn, req, ts)
    ensures var card, live := cards(c), Run(b, Applies(cards(c), hs), threshold);
      var range := RangeOf(card, req);
      && (Nothing(FirstPlan(live, card, range, req.expected, ts, {})) <==> DropsNoSeed(card, range, ts, {}))
      && ((forall h :: h in hs ==> DayOf(h) <= req.asOf) ==> Rebuilt(live, card, range, req.expected, ts, {}) == live)
  {
    var card, live := cards(c), Run(b, Applies(cards(c), hs), threshold);
    var range := RangeOf(card, req);
    assert card.id == c && Sound(card) && OwnCaps(card);
    hide Run, RangeOf, GoodCards, Good, PlanOf, Nothing, DropsNoSeed, Uniform, GoodRange, IsFloor, Rebuilding,
    StoredRowsDated, GoodBook, GoodMilestones, GoodSpans, Rebuildable;
    assert (forall h :: h in hs ==> h.card == c && Fresh(b, h)) && DistinctIds(hs);
    LiveGood(b, cards, c, hs, threshold);
    FloorLoadsAll(live, cards, c, openedOn, req, ts, threshold);
    RebuildSettled(b, card, units, range, req.expected, hs, ts, threshold);
    if forall h :: h in hs ==> DayOf(h) <= req.asOf {
      LatestSettled(b, card, req, hs, ts, threshold);
      NothingWritten(live, FirstPlan(live, card, range, req.expected, ts, {}));
    }
  }
}
