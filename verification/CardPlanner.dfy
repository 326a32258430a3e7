/** The planning algorithms, with the loops and the mutable maps they use. */
module CardPlanner {
  import opened Basics
  import opened Cycles
  import opened CardRecords
  import opened CardModel
  import opened CardReplay
  import opened CardRefinement
  import opened FeeWaivers

  /** `capPeriodsBetween`. */
  method CapPeriodsBetween(card: Card, id: Id, start: int, end: int) returns (ws: seq<Window>)
    ensures ws == PeriodsFrom(card, id, card.windows.cap(id, start), end, MAX_PERIODS_PER_CAP)
  {
    ws := [];
    var w, i := card.windows.cap(id, start), 0;
    while i < MAX_PERIODS_PER_CAP
      invariant 0 <= i <= MAX_PERIODS_PER_CAP
      invariant ws + PeriodsFrom(card, id, w, end, MAX_PERIODS_PER_CAP - i)
             == PeriodsFrom(card, id, card.windows.cap(id, start), end, MAX_PERIODS_PER_CAP)
    {
      ghost var rest := PeriodsFrom(card, id, w, end, MAX_PERIODS_PER_CAP - i);
      assert rest[0] == w && ws + rest == ws + [w] + rest[1..];
      ws := ws + [w];
      if w.end >= end {
        return;
      }
      w := card.windows.cap(id, w.end + 1);
      i := i + 1;
    }
  }

  method EarliestAndLatest(card: Card, first: int, last: int, from: int, to: int, lifetimes: bool) returns (start: int,
      end: int)
    ensures start == EarliestStart(card, card.caps, first, from)
    ensures end == LatestEnd(card, card.caps, last, to, lifetimes)
  {
    start, end := from, to;
    var i := 0;
    while i < |card.caps|
      invariant 0 <= i <= |card.caps|
      invariant EarliestStart(card, card.caps[i..], first, start) == EarliestStart(card, card.caps, first, from)
      invariant LatestEnd(card, card.caps[i..], last, end, lifetimes) == LatestEnd(card, card.caps, last, to, lifetimes)
    {
      start := Min(start, card.windows.cap(card.caps[i], first).start);
      if card.caps[i] !in card.lifetime || lifetimes {
        end := Max(end, card.windows.cap(card.caps[i], last).end);
      }
      assert card.caps[i..][1..] == card.caps[i + 1..];
      i := i + 1;
    }
  }

  method CapDays(card: Card, req: Request) returns (caps: CapRange)
    ensures caps == CapRangeOf(card, req)
  {
    var start, end := EarliestAndLatest(card, req.asOf, req.asOf, req.asOf, req.asOf, false);
    if req.expected {
      start := Min(start, MonthFirst(req.asOf));
    }
    if req.since.Some? {
      start := Min(start, req.since.value);
    }
    start := AtFloor(req, start);
    var seedFrom, seedTo := EarliestAndLatest(card, start, end, start, end, true);
    caps := CapRange(start, end, AtFloor(req, seedFrom), seedTo);
  }

  lemma SpansStep(card: Card, spans: seq<Span>, i: nat, day: int)
    requires i < |card.milestones|
    ensures var w := card.windows.milestone(card.milestones[i].id, day);
      spans + SpansOf(card, card.milestones[i..], day)
      == (if w.Some? then spans + [Span(card.milestones[i].id, w.value)] else spans) + SpansOf(card,
          card.milestones[i + 1..], day)
  {
    var rest := SpansOf(card, card.milestones[i + 1..], day);
    var w := card.windows.milestone(card.milestones[i].id, day);
    assert card.milestones[i..][1..] == card.milestones[i + 1..];
    if w.Some? {
      var s := [Span(card.milestones[i].id, w.value)];
      assert SpansOf(card, card.milestones[i..], day) == s + rest;
      assert spans + (s + rest) == spans + s + rest;
    } else {
      assert SpansOf(card, card.milestones[i..], day) == [] + rest == rest;
    }
  }

  lemma SpansEdges(card: Card, spans: seq<Span>, day: int)
    ensures [] + SpansOf(card, card.milestones[0..], day) == SpansOf(card, card.milestones, day)
    ensures spans + SpansOf(card, card.milestones[|card.milestones|..], day) == spans
  {
    assert card.milestones[0..] == card.milestones && card.milestones[|card.milestones|..] == [];
  }

  method CurrentSpans(card: Card, day: int) returns (spans: seq<Span>)
    ensures spans == SpansOf(card, card.milestones, day)
  {
    hide SpansOf;
    spans := [];
    SpansEdges(card, [], day);
    var i := 0;
    while i < |card.milestones|
      invariant 0 <= i <= |card.milestones|
      invariant spans + SpansOf(card, card.milestones[i..], day) == SpansOf(card, card.milestones, day)
    {
      SpansStep(card, spans, i, day);
      var w := card.windows.milestone(card.milestones[i].id, day);
      if w.Some? {
        spans := spans + [Span(card.milestones[i].id, w.value)];
      }
      i := i + 1;
    }
    SpansEdges(card, spans, day);
  }

  /** `rebuildRange`. */
  method RebuildRange(card: Card, req: Request) returns (range: Range)
    ensures range == RangeOf(card, req)
  {
    var caps: Option<CapRange> := None;
    if req.caps || req.expected {
      var days := CapDays(card, req);
      caps := Some(days);
    }
    var spans: seq<Span> := [];
    if req.milestones {
      spans := CurrentSpans(card, req.asOf);
    }
    var from := if caps.Some? then Some(caps.value.seedFrom) else None;
    var to := if caps.Some? then Some(caps.value.seedTo) else None;
    ghost var from0, to0 := from, to;
    var j := 0;
    while j < |spans|
      invariant 0 <= j <= |spans|
      invariant LoadFrom(req, spans[j..], from) == LoadFrom(req, spans, from0)
      invariant LoadTo(spans[j..], to) == LoadTo(spans, to0)
    {
      var s := AtFloor(req, spans[j].window.start);
      from := Some(if from.None? then s else Min(from.value, s));
      to := Some(if to.None? then spans[j].window.end else Max(to.value, spans[j].window.end));
      assert spans[j..][1..] == spans[j + 1..];
      j := j + 1;
    }
    range := Range(req.asOf, caps, spans, from, to);
  }

  /** The empty rows of every period to rebuild. */
  method EmptyRows(card: Card, range: Range) returns (rows: Table)
    requires range.caps.Some?
    ensures rows == Slots(card, range)
  {
    rows := map[];
    var i := 0;
    while i < |card.caps|
      invariant 0 <= i <= |card.caps|
      invariant SlotsFor(rows, card, range, card.caps[i..]) == Slots(card, range)
    {
      var id := card.caps[i];
      var own := card.windows.cap(id, range.asOf).end;
      var ws := CapPeriodsBetween(card, id, range.caps.value.start, Min(range.caps.value.end, own));
      ghost var before := rows;
      var j := 0;
      while j < |ws|
        invariant 0 <= j <= |ws|
        invariant AddSlots(rows, card, id, ws[j..]) == AddSlots(before, card, id, ws)
      {
        rows := rows[Key(card.id, id, ws[j].start) := Row(ws[j].end, 0, CapMark(None, None, ws[j].approximate))];
        j := j + 1;
      }
      assert ws[|ws|..] == [];
      assert card.caps[i..][1..] == card.caps[i + 1..];
      i := i + 1;
    }
    assert card.caps[|card.caps|..] == [];
  }

  /** One spend of the cap replay: a seed through its stored entries, a replayed one through new. */
  method ReplaySpend(card: Card, caps: CapRange, r: Replay, t: Txn, excluded: set<Id>) returns (n: Replay)
    ensures n == ReplayOne(card, caps, r, t, excluded)
  {
    n := r;
    if Counts(t, excluded) {
      var rows := r.rows;
      if DayOf(t) < caps.start || DayOf(t) > caps.end {
        var es, i := EntriesOf(t.record, Caps), 0;
        while i < |es|
          invariant 0 <= i <= |es|
          invariant SeedRows(card, rows, es[i..]) == SeedRows(card, r.rows, es)
        {
          var k := KeyOf(card, es[i]);
          if k in rows {
            rows := rows[k := AddToRow(card, rows[k], es[i], None)];
          }
          i := i + 1;
        }
        assert es[|es|..] == [];
        n := r.(rows := rows);
      } else {
        var out := Compute(card, t.context, rows);
        var i := 0;
        while i < |out.moves|
          invariant 0 <= i <= |out.moves|
          invariant MoveRows(card, rows, out.moves[i..]) == MoveRows(card, r.rows, out.moves)
        {
          var m := out.moves[i];
          var k := KeyOf(card, m.entry);
          if k in rows {
            rows := rows[k := AddToRow(card, rows[k], m.entry, Some(m.amount))];
          } else {
            rows := rows[k := Row(m.entry.end, m.entry.delta, CapMark(m.entry.kind, Some(m.amount), m.approximate))];
          }
          i := i + 1;
        }
        assert out.moves[|out.moves|..] == [];
        n := Replay(rows, r.moved[t.id := Entries(out.moves)],
                    r.figures[t.id := Expected(Some(out.native), Some(out.value), out.cashback)]);
      }
    }
  }

  method CountEntries(card: Card, before: Table, es: seq<Entry>) returns (rows: Table)
    ensures rows == AddMilestoneEntries(card, before, es)
  {
    rows := before;
    var j := 0;
    while j < |es|
      invariant 0 <= j <= |es|
      invariant AddMilestoneEntries(card, rows, es[j..]) == AddMilestoneEntries(card, before, es)
    {
      var k := KeyOf(card, es[j]);
      if k in rows {
        rows := rows[k := rows[k].(value := rows[k].value + es[j].delta)];
      }
      assert es[j..][1..] == es[j + 1..];
      j := j + 1;
    }
    assert es[|es|..] == [];
  }

  /** Counts every eligible spend in the milestone windows being rebuilt. */
  method CountMilestones(card: Card, slots: Table, ts: seq<Txn>, excluded: set<Id>) returns (rows: Table)
    ensures rows == MilestoneReplay(card, slots, slots, ts, excluded)
  {
    hide AddMilestoneEntries, NewMilestones, Counts;
    rows := slots;
    var i := 0;
    while i < |ts|
      invariant 0 <= i <= |ts|
      invariant MilestoneReplay(card, slots, rows, ts[i..], excluded) == MilestoneReplay(card, slots, slots, ts,
          excluded)
    {
      if Counts(ts[i], excluded) {
        rows := CountEntries(card, rows, NewMilestones(card, slots, ts[i].context));
      }
      assert ts[i..][1..] == ts[i + 1..];
      i := i + 1;
    }
    assert ts[|ts|..] == [];
  }

  /** The records that are out of date. */
  method StaleRecords(card: Card, range: Range, replay: Replay, slots: Table, ts: seq<Txn>, excluded: set<Id>)
    returns (records: map<Id, Option<Record>>)
    requires DistinctIds(ts)
    ensures records == RecordUpdates(card, range, replay, slots, ts, excluded)
  {
    hide NextRecord, Canonical;
    records := map[];
    var i := 0;
    while i < |ts|
      invariant 0 <= i <= |ts|
      invariant forall j :: i <= j < |ts| ==> ts[j].id !in records
      invariant RecordUpdates(card, range, replay, slots, ts[i..], excluded) + records
             == RecordUpdates(card, range, replay, slots, ts, excluded)
    {
      var next := NextRecord(card, range, replay, slots, ts[i], excluded);
      assert ts[i..][1..] == ts[i + 1..];
      if ts[i].id !in excluded && Canonical(next) != Canonical(ts[i].record) {
        records := records[ts[i].id := next];
      }
      i := i + 1;
    }
    assert ts[|ts|..] == [];
  }

  /** The figures that are out of date. */
  method StaleFigures(replay: Replay, ts: seq<Txn>) returns (figures: map<Id, Expected>)
    requires DistinctIds(ts)
    ensures figures == ExpectedUpdates(replay, ts)
  {
    figures := map[];
    var i := 0;
    while i < |ts|
      invariant 0 <= i <= |ts|
      invariant forall j :: i <= j < |ts| ==> ts[j].id !in figures
      invariant ExpectedUpdates(replay, ts[i..]) + figures == ExpectedUpdates(replay, ts)
    {
      var t := ts[i];
      assert ts[i..][1..] == ts[i + 1..];
      if t.id in replay.figures && replay.figures[t.id] != t.expected {
        figures := figures[t.id := replay.figures[t.id]];
      }
      i := i + 1;
    }
    assert ts[|ts|..] == [];
  }

  /** `planReplay`, on rows in whatever order they come. */
  method PlanReplay(card: Card, range: Range, ts: seq<Txn>, expected: bool, excluded: set<Id>,
                    existingCaps: Table, existingMilestones: Table) returns (plan: Plan)
    requires DistinctIds(ts)
    ensures plan == PlanOf(card, range, SortTxns(ts), expected, excluded, existingCaps, existingMilestones)
  {
    var ordered := SortTxns(ts);
    SortTxnsDistinct(ts);
    var replay := Replay(map[], map[], map[]);
    if range.caps.Some? {
      var caps := range.caps.value;
      var rows := EmptyRows(card, range);
      replay := Replay(rows, map[], map[]);
      var i := 0;
      while i < |ordered|
        invariant 0 <= i <= |ordered|
        invariant ReplayAll(card, caps, replay, ordered[i..], excluded) == ReplayOf(card, range, ordered, excluded)
      {
        replay := ReplaySpend(card, caps, replay, ordered[i], excluded);
        assert ordered[i..][1..] == ordered[i + 1..];
        i := i + 1;
      }
      assert ordered[|ordered|..] == [];
    }
    var slots := MilestoneSlots(map[], card, range.milestones);
    var milestones := CountMilestones(card, slots, ordered, excluded);
    var records := StaleRecords(card, range, replay, slots, ordered, excluded);
    var figures := StaleFigures(replay, ordered);
    var scope := InScope(range.milestones, existingMilestones);
    var gone := set k | k in scope && k !in milestones;
    plan := Plan(Positive(replay.rows), Changed(replay.rows, existingCaps),
                 Moved(card, range, replay.rows, existingCaps) + Emptied(replay.rows, existingCaps),
                 Positive(milestones), Changed(milestones, scope), gone + Emptied(milestones, scope),
                 records, if expected then figures else map[]);
  }

  lemma SortTxnsDistinct(ts: seq<Txn>)
    requires DistinctIds(ts)
    ensures DistinctIds(SortTxns(ts))
  {
    SortTxnsOrdered(ts);
    var us := SortTxns(ts);
    forall i, j | 0 <= i < j < |us|
      ensures us[i].id != us[j].id
    {
      assert us[i] in us && us[j] in us && TimeBefore(us[i], us[j]);
      if us[i].id == us[j].id {
        SameIdSame(ts, us[i], us[j]);
      }
    }
  }

  lemma SameIdSame(ts: seq<Txn>, t: Txn, u: Txn)
    requires DistinctIds(ts) && t in ts && u in ts && t.id == u.id
    ensures t == u
  {
  }

  /** The fee entries of one spend, added to the totals of their windows. */
  method CountFees(card: Card, ws: seq<FeeWindow>, t: Txn, totals: map<Key, int>) returns (entries: seq<Entry>,
      after: map<Key, int>)
    ensures entries == FeeEntriesIn(card, ws, t) && after == AddTotals(card, totals, entries)
  {
    entries, after := [], totals;
    var j := 0;
    while j < |ws|
      invariant 0 <= j <= |ws|
      invariant entries + FeeEntriesIn(card, ws[j..], t) == FeeEntriesIn(card, ws, t)
      invariant AddTotals(card, after, FeeEntriesIn(card, ws[j..], t))
                == AddTotals(card, totals, FeeEntriesIn(card, ws, t))
    {
      var w := ws[j];
      assert ws[j..][1..] == ws[j + 1..];
      ghost var rest := FeeEntriesIn(card, ws[j + 1..], t);
      if CountsIn(card, w, t) {
        var e := Entry(w.rule.id, w.bounds.start, w.bounds.end, t.context.amount, None);
        assert FeeEntriesIn(card, ws[j..], t) == [e] + rest && ([e] + rest)[1..] == rest;
        assert entries + ([e] + rest) == entries + [e] + rest;
        var k := FeeKey(card, w);
        if k in after {
          after := after[k := after[k] + e.delta];
        }
        entries := entries + [e];
      } else {
        assert FeeEntriesIn(card, ws[j..], t) == [] + rest == rest;
      }
      j := j + 1;
    }
    assert ws[|ws|..] == [] && entries + [] == entries;
  }

  lemma TotalsTail(card: Card, ws: seq<FeeWindow>, totals: map<Key, int>, ts: seq<Txn>, i: nat)
    requires i < |ts|
    ensures Totals(card, ws, totals, ts[i..])
         == Totals(card, ws, if FeeCounts(card, ts[i]) then AddTotals(card, totals, FeeEntriesIn(card, ws, ts[i]))
                   else totals, ts[i + 1..])
  {
    assert ts[i..][1..] == ts[i + 1..];
  }

  lemma FeeRecordsTail(card: Card, ws: seq<FeeWindow>, ts: seq<Txn>, i: nat)
    requires i < |ts|
    ensures var rest, next := FeeRecords(card, ws, ts[i + 1..]), NextFeeRecord(card, ws, ts[i]);
      FeeRecords(card, ws, ts[i..]) == if Canonical(next) == Canonical(ts[i].record) then rest
      else rest[ts[i].id := next]
  {
    assert ts[i..][1..] == ts[i + 1..];
  }

  lemma FeeRecordsIds(card: Card, ws: seq<FeeWindow>, ts: seq<Txn>, i: nat)
    requires DistinctIds(ts) && i < |ts|
    ensures ts[i].id !in FeeRecords(card, ws, ts[i + 1..])
  {
    FeeRecordsAt(card, ws, ts[i + 1..]);
  }

  lemma FeeRunEdges(card: Card, ws: seq<FeeWindow>, totals: map<Key, int>, ts: seq<Txn>)
    ensures Totals(card, ws, totals, ts[0..]) == Totals(card, ws, totals, ts) && Totals(card, ws, totals, ts[|ts|..])
            == totals
    ensures FeeRecords(card, ws, ts[0..]) == FeeRecords(card, ws, ts) && FeeRecords(card, ws, ts[|ts|..]) == map[]
  {
    assert ts[0..] == ts && ts[|ts|..] == [];
  }

  /** `planFeeWaivers`: the totals of the windows and the records that change. */
  method PlanFeeWaivers(card: Card, ws: seq<FeeWindow>, ts: seq<Txn>)
    returns (totals: map<Key, int>, records: map<Id, Option<Record>>)
    requires DistinctIds(ts)
    ensures totals == Totals(card, ws, ZeroTotals(card, ws), ts) && records == FeeRecords(card, ws, ts)
  {
    hide NextFeeRecord, Canonical, FeeEntriesIn, ZeroTotals, Totals, FeeRecords, AddTotals, FeeCounts;
    totals, records := ZeroTotals(card, ws), map[];
    FeeRunEdges(card, ws, totals, ts);
    var i := 0;
    while i < |ts|
      invariant 0 <= i <= |ts|
      invariant Totals(card, ws, totals, ts[i..]) == Totals(card, ws, ZeroTotals(card, ws), ts)
      invariant records + FeeRecords(card, ws, ts[i..]) == FeeRecords(card, ws, ts)
    {
      var t := ts[i];
      TotalsTail(card, ws, totals, ts, i);
      FeeRecordsTail(card, ws, ts, i);
      FeeRecordsIds(card, ws, ts, i);
      if FeeCounts(card, t) {
        var entries, after := CountFees(card, ws, t, totals);
        totals := after;
      }
      var next := NextFeeRecord(card, ws, t);
      if Canonical(next) != Canonical(t.record) {
        ghost var rest := FeeRecords(card, ws, ts[i + 1..]);
        assert records + rest[t.id := next] == records[t.id := next] + rest;
        records := records[t.id := next];
      }
      i := i + 1;
    }
    FeeRunEdges(card, ws, totals, ts);
    assert records + map[] == records;
  }
}
