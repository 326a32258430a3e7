/** A card's history recorded live, then rebuilt: over any range the rebuild gives back the counters
    and entries live recording left, with the spends outside the replay window as seeds. */
module CardHistory {
  import opened Basics
  import opened Cycles
  import opened CardRecords
  import opened CardModel
  import opened CardLive
  import opened CardReplay
  import opened CardRange
  import opened CardAgreement
  import opened CardIdempotent
  import opened CardRefinement

  /** The final versions of the spends `hs` that the rebuild loads. */
  function LoadedFrom(live: Book, card: Card, range: Range, hs: seq<Txn>): seq<Txn>
    requires forall h :: h in hs ==> h.id in live.txns
    decreases |hs|
  {
    if hs == [] then []
    else
      var u := live.txns[hs[0].id];
      (if Selected(card, range, u) then [u] else []) + LoadedFrom(live, card, range, hs[1..])
  }

  /** Equal counters at every period that meets the replay window, or at every rebuilt row. */
  ghost predicate SameOverlaps(card: Card, range: Range, live: Table, rows: Table)
    requires range.caps.Some?
  {
    forall k :: Overlapping(card, range, k) ==> Value(live, k) == Value(rows, k)
  }

  ghost predicate SameRows(live: Table, rows: Table) {
    forall k :: k in rows ==> Value(live, k) == rows[k].value
  }

  /** The rows of the rebuild, and among them every cap's period at the window's start. */
  ghost predicate Started(card: Card, caps: CapRange, rows: Table) {
    && DatedRows(card, caps, rows)
    && forall id :: id in card.caps ==> Key(card.id, id, card.windows.cap(id, caps.start).start) in rows
  }

  /** What live recording made of a spend: the entries of its record. */
  ghost predicate RecordedAs(card: Card, before: Table, h: Txn, u: Txn) {
    var out := Compute(card, h.context, before);
    && u.id == h.id && u.context == h.context && Eligible(u)
    && EntriesOf(u.record, Caps) == SortEntries(Entries(out.moves))
    && u.expected == Expected(Some(out.native), Some(out.value), out.cashback)
    && (forall e :: e in EntriesOf(u.record, Caps) ==> DatedCap(card, DayOf(u), e))
  }

  lemma AppliedRecords(b: Book, card: Card, h: Txn, threshold: Id -> int)
    requires OwnCaps(card) && Clean(b) && Fresh(b, h)
    ensures var a := Applied(b, card, h.id, threshold); h.id in a.txns && RecordedAs(card, b.caps, h, a.txns[h.id])
  {
    var a, out := Applied(b, card, h.id, threshold), Compute(card, h.context, b.caps);
    AppliedParts(b, card, h, threshold);
    AppliedSame(b, card, h.id, threshold);
    var plan, day := card.engine.plan(h.context), DayOf(h);
    CapMovesDated(card, plan.caps, card.engine.price(h.context, ConsumedBefore(card, b.caps, plan.caps, day)).deltas,
                  day);
    SortMembers(Entries(out.moves));
    hide Applied, Compute, DatedCap;
    forall e | e in Entries(out.moves)
      ensures DatedCap(card, DayOf(h), e)
    {
      var i :| 0 <= i < |out.moves| && e == Entries(out.moves)[i];
      assert DatedCap(card, DayOf(h), out.moves[i].entry);
    }
  }

  lemma AppliedSame(b: Book, card: Card, id: Id, threshold: Id -> int)
    requires id in b.txns
    ensures var a, t := Applied(b, card, id, threshold), b.txns[id];
      id in a.txns && a.txns[id] == t.(record := a.txns[id].record, expected := a.txns[id].expected)
  {
  }

  // ---- one spend ---------------------------------------------------------------------------------

  /** A spend that is not loaded, or lies before the window, has no entry in an overlapping period
      that has no row. */
  lemma NoEntryAt(card: Card, range: Range, u: Txn, k: Key)
    requires Sound(card) && range.caps.Some? && GoodRange(range) && LoadComplete(card, range, DayOf(u))
             && InSpan(DayOf(u))
    requires Overlapping(card, range, k) && forall e :: e in EntriesOf(u.record, Caps) ==> DatedCap(card, DayOf(u), e)
    requires !InLoad(range, DayOf(u))
    ensures EntrySum(EntriesOf(u.record, Caps), k.rule, k.start) == 0
  {
    var w, v := card.windows.cap(k.rule, k.start), card.windows.cap(k.rule, DayOf(u));
    assert TiledCap(card, k.rule);
    assert k.rule !in card.lifetime ==> card.windows.cap(k.rule, v.start) == v;
    assert v.start == k.start ==> v == w;
    forall e | e in EntriesOf(u.record, Caps)
      ensures e.id == k.rule ==> e.start != k.start
    {
      assert DatedCap(card, DayOf(u), e);
    }
    EntrySumNone(EntriesOf(u.record, Caps), k.rule, k.start);
  }

  lemma EarlyEntryAt(card: Card, range: Range, rows: Table, u: Txn, k: Key)
    requires Sound(card) && range.caps.Some? && GoodRange(range) && Started(card, range.caps.value, rows)
             && InSpan(DayOf(u))
    requires Overlapping(card, range, k) && forall e :: e in EntriesOf(u.record, Caps) ==> DatedCap(card, DayOf(u), e)
    requires DayOf(u) < range.caps.value.start && k !in rows
    ensures EntrySum(EntriesOf(u.record, Caps), k.rule, k.start) == 0
  {
    hide TiledCap;
    var t := u.(record := if u.record.Some? then Some(u.record.value.(card := card.id)) else None);
    assert EntriesOf(t.record, Caps) == EntriesOf(u.record, Caps) && DayOf(t) == DayOf(u);
    assert DatedTxn(card, t);
    EarlySeedMisses(card, range.caps.value, rows, t, k);
  }

  /** Pricing a spend inside the window looks at overlapping periods only. */
  lemma ComputeByOverlaps(card: Card, range: Range, ctx: Context, a: Table, b: Table)
    requires Sound(card) && range.caps.Some? && SameOverlaps(card, range, a, b) && InSpan(IstDay(ctx.occurred))
    requires range.caps.value.start <= IstDay(ctx.occurred) <= range.caps.value.end
    ensures Compute(card, ctx, a) == Compute(card, ctx, b)
  {
    var caps, day := card.engine.plan(ctx).caps, IstDay(ctx.occurred);
    forall id | id in PlannedIds(caps)
      ensures Overlapping(card, range, Key(card.id, id, card.windows.cap(id, day).start))
    {
      var a :| a in caps && a.id == id;
      assert TiledCap(card, id);
      var w := card.windows.cap(id, day);
      assert id !in card.lifetime ==> card.windows.cap(id, w.start) == w;
    }
    assert ConsumedBefore(card, a, caps, day) == ConsumedBefore(card, b, caps, day);
  }

  lemma StartedStays(card: Card, caps: CapRange, r: Replay, u: Txn)
    requires Sound(card) && Started(card, caps, r.rows) && InSpan(DayOf(u))
    requires forall e :: e in EntriesOf(u.record, Caps) ==> DatedCap(card, DayOf(u), e)
    ensures Started(card, caps, ReplayOne(card, caps, r, u, {}).rows)
    ensures r.rows.Keys <= ReplayOne(card, caps, r, u, {}).rows.Keys
    ensures !Within(caps, u) ==> ReplayOne(card, caps, r, u, {}).rows.Keys == r.rows.Keys
  {
    var t := u.(record := if u.record.Some? then Some(u.record.value.(card := card.id)) else None);
    assert EntriesOf(t.record, Caps) == EntriesOf(u.record, Caps) && DayOf(t) == DayOf(u);
    assert DatedTxn(card, t);
    ReplayOneDated(card, caps, r, t, {});
    assert ReplayOne(card, caps, r, t, {}).rows == ReplayOne(card, caps, r, u, {}).rows;
  }

  lemma SeedValues(card: Card, caps: CapRange, rows: Table, es: seq<Entry>)
    requires DatedRows(card, caps, rows)
    ensures forall k :: k in rows ==> Value(SeedRows(card, rows, es), k) == Value(rows, k) + EntrySum(es, k.rule,
        k.start)
    ensures forall k :: k !in rows ==> Value(SeedRows(card, rows, es), k) == 0
  {
    SeedRowsSum(card, caps, rows, es);
  }

  /** The live step and the replay step of one loaded spend, not after the window, keep the
      overlapping counters equal. */
  lemma StepSame(b: Book, card: Card, range: Range, r: Replay, h: Txn, u: Txn, threshold: Id -> int)
    requires Sound(card) && range.caps.Some? && GoodRange(range) && Started(card, range.caps.value, r.rows)
    requires Clean(b) && Fresh(b, h) && InSpan(DayOf(h)) && RecordedAs(card, b.caps, h, u)
    requires SameOverlaps(card, range, b.caps, r.rows) && DayOf(h) <= range.caps.value.end
    ensures SameOverlaps(card, range, Applied(b, card, h.id, threshold).caps,
                         ReplayOne(card, range.caps.value, r, u, {}).rows)
    ensures Within(range.caps.value, u) ==>
              var n := ReplayOne(card, range.caps.value, r, u, {});
              SortEntries(n.moved[u.id]) == EntriesOf(u.record, Caps) && n.figures[u.id] == u.expected
  {
    var caps, a, n := range.caps.value, Applied(b, card, h.id, threshold), ReplayOne(card, range.caps.value, r, u, {});
    var out, es := Compute(card, h.context, b.caps), EntriesOf(u.record, Caps);
    AppliedParts(b, card, h, threshold);
    assert DayOf(u) == DayOf(h) && Counts(u, {});
    hide Applied, Compute, DatedCap, TiledCap, MoveRows, SeedRows;
    if Within(caps, u) {
      ComputeByOverlaps(card, range, h.context, b.caps, r.rows);
      MoveRowsValue(card, r.rows, out.moves);
    } else {
      SeedValues(card, caps, r.rows, es);
      forall k | Overlapping(card, range, k)
        ensures Value(a.caps, k) == Value(n.rows, k)
      {
        EntrySumSort(Entries(out.moves), k.rule, k.start);
        if k !in r.rows {
          EarlyEntryAt(card, range, r.rows, u, k);
        }
      }
    }
  }

  /** A spend after the window moves each rebuilt row as it moved the live one. */
  lemma LateSame(b: Book, card: Card, range: Range, r: Replay, h: Txn, u: Txn, threshold: Id -> int)
    requires range.caps.Some? && Started(card, range.caps.value, r.rows) && Clean(b) && Fresh(b, h)
             && RecordedAs(card, b.caps, h, u)
    requires SameRows(b.caps, r.rows) && DayOf(h) > range.caps.value.end
    ensures SameRows(Applied(b, card, h.id, threshold).caps, ReplayOne(card, range.caps.value, r, u, {}).rows)
  {
    var caps, a, n := range.caps.value, Applied(b, card, h.id, threshold), ReplayOne(card, range.caps.value, r, u, {});
    var out, es := Compute(card, h.context, b.caps), EntriesOf(u.record, Caps);
    AppliedParts(b, card, h, threshold);
    assert DayOf(u) == DayOf(h) && Counts(u, {});
    hide Applied, Compute, DatedCap, SeedRows;
    SeedRowsSum(card, caps, r.rows, es);
    forall k | k in n.rows
      ensures Value(a.caps, k) == n.rows[k].value
    {
      assert DatedRow(card, caps, k, r.rows[k]);
      EntrySumSort(Entries(out.moves), k.rule, k.start);
    }
  }

  lemma UnloadedAt(b: Book, card: Card, range: Range, h: Txn, u: Txn, threshold: Id -> int, k: Key)
    requires Sound(card) && range.caps.Some? && GoodRange(range) && Clean(b) && Fresh(b, h) && InSpan(DayOf(h))
    requires RecordedAs(card, b.caps, h, u) && LoadComplete(card, range, DayOf(h)) && !InLoad(range, DayOf(h))
    requires Overlapping(card, range, k)
    ensures Value(Applied(b, card, h.id, threshold).caps, k) == Value(b.caps, k)
  {
    var out := Compute(card, h.context, b.caps);
    AppliedParts(b, card, h, threshold);
    hide Applied, Compute, DatedCap, TiledCap;
    EntrySumSort(Entries(out.moves), k.rule, k.start);
    NoEntryAt(card, range, u, k);
  }

  /** A spend that is not loaded moves no overlapping counter. */
  lemma UnloadedSame(b: Book, card: Card, range: Range, rows: Table, h: Txn, u: Txn, threshold: Id -> int)
    requires Sound(card) && range.caps.Some? && GoodRange(range) && Started(card, range.caps.value, rows)
    requires Clean(b) && Fresh(b, h) && InSpan(DayOf(h)) && RecordedAs(card, b.caps, h, u)
    requires LoadComplete(card, range, DayOf(h)) && !InLoad(range, DayOf(h))
    ensures var a := Applied(b, card, h.id, threshold);
      && (SameOverlaps(card, range, b.caps, rows) ==> SameOverlaps(card, range, a.caps, rows))
      && (SameRows(b.caps, rows) ==> SameRows(a.caps, rows))
  {
    var a := Applied(b, card, h.id, threshold);
    forall k | k in rows
      ensures Overlapping(card, range, k)
    {
      assert DatedRow(card, range.caps.value, k, rows[k]);
    }
    hide Applied, RecordedAs, Overlapping, Started, Sound, GoodRange, Clean, LoadComplete, InLoad;
    forall k | Overlapping(card, range, k)
      ensures Value(a.caps, k) == Value(b.caps, k)
    {
      UnloadedAt(b, card, range, h, u, threshold, k);
    }
  }

  // ---- a whole history -----------------------------------------------------------------------------

  /** A spend of the history not recorded yet. */
  ghost predicate Pending(b: Book, card: Card, range: Range, h: Txn) {
    Fresh(b, h) && h.card == card.id && InSpan(DayOf(h)) && LoadComplete(card, range, DayOf(h))
  }

  /** The replay of the final versions of `hs` and the live recording of `hs`, side by side. */
  ghost predicate InStep(b: Book, card: Card, range: Range, r: Replay, hs: seq<Txn>)
    requires range.caps.Some?
  {
    && Started(card, range.caps.value, r.rows) && SameRows(b.caps, r.rows)
    && (hs != [] && DayOf(hs[0]) <= range.caps.value.end ==> SameOverlaps(card, range, b.caps, r.rows))
  }

  lemma OverlapsGiveRows(card: Card, range: Range, live: Table, rows: Table)
    requires range.caps.Some? && Started(card, range.caps.value, rows) && SameOverlaps(card, range, live, rows)
    ensures SameRows(live, rows)
  {
    forall k | k in rows
      ensures Value(live, k) == rows[k].value
    {
      assert DatedRow(card, range.caps.value, k, rows[k]);
    }
  }

  lemma NextInStep(b: Book, card: Card, range: Range, r: Replay, hs: seq<Txn>, u: Txn, threshold: Id -> int)
    requires Sound(card) && range.caps.Some? && GoodRange(range) && Clean(b) && hs != [] && Ordered(hs)
    requires Pending(b, card, range, hs[0]) && RecordedAs(card, b.caps, hs[0], u) && u.card == card.id
             && InStep(b, card, range, r, hs)
    ensures var a := Applied(b, card, hs[0].id, threshold);
      var n := if Selected(card, range, u) then ReplayOne(card, range.caps.value, r, u, {}) else r;
      && InStep(a, card, range, n, hs[1..])
      && (Selected(card, range, u) && Within(range.caps.value, u) ==>
            SortEntries(n.moved[u.id]) == EntriesOf(u.record, Caps) && n.figures[u.id] == u.expected)
  {
    var h, caps := hs[0], range.caps.value;
    var a, n := Applied(b, card, h.id, threshold), if Selected(card, range, u) then ReplayOne(card, caps, r, u, {})
      else r;
    assert DayOf(u) == DayOf(h);
    if |hs| > 1 {
      assert TimeBefore(hs[0], hs[1]) && hs[1..][0] == hs[1];
      DaysInOrder(hs[0], hs[1]);
    }
    StartedStays(card, caps, r, u);
    hide Applied, RecordedAs, ReplayOne, Started, SameRows, SameOverlaps, Clean, LoadComplete, GoodRange, Sound, Fresh,
    TimeBefore;
    assert Selected(card, range, u) <==> InLoad(range, DayOf(h)) by {
      LoadedIff(card, range, h, u, b.caps);
    }
    if !Selected(card, range, u) {
      UnloadedSame(b, card, range, r.rows, h, u, threshold);
    } else if DayOf(h) > caps.end {
      LateSame(b, card, range, r, h, u, threshold);
    } else {
      StepSame(b, card, range, r, h, u, threshold);
      OverlapsGiveRows(card, range, a.caps, n.rows);
    }
  }

  lemma DaysInOrder(a: Txn, b: Txn)
    requires TimeBefore(a, b)
    ensures DayOf(a) <= DayOf(b)
  {
  }

  lemma LoadedIff(card: Card, range: Range, h: Txn, u: Txn, before: Table)
    requires RecordedAs(card, before, h, u) && u.card == card.id
    ensures Selected(card, range, u) <==> InLoad(range, DayOf(h))
  {
  }

  /** The replay holds for `u` what live recording stored on it. */
  ghost predicate SameAsLive(f: Replay, u: Txn) {
    u.id in f.moved && u.id in f.figures && SortEntries(f.moved[u.id]) == EntriesOf(u.record, Caps)
    && f.figures[u.id] == u.expected
  }

  lemma FirstLive(b: Book, card: Card, hs: seq<Txn>, threshold: Id -> int)
    requires OwnCaps(card) && Clean(b) && hs != [] && DistinctIds(hs) && Fresh(b, hs[0])
    requires forall h :: h in hs ==> Fresh(b, h)
    ensures var a, live := Applied(b, card, hs[0].id, threshold), Run(b, Applies(card, hs), threshold);
      && Clean(a) && live == Run(a, Applies(card, hs[1..]), threshold) && (forall h :: h in hs[1..] ==> Fresh(a, h))
      && hs[0].id in live.txns && RecordedAs(card, b.caps, hs[0], live.txns[hs[0].id]) && live.txns[hs[0].id].card
         == hs[0].card
  {
    var h, a := hs[0], Applied(b, card, hs[0].id, threshold);
    assert Fresh(b, h);
    assert Applies(card, hs)[1..] == Applies(card, hs[1..]) && Applies(card, hs)[0] == Apply(card, h.id);
    TailIds(hs);
    AppliedParts(b, card, h, threshold);
    AppliedRecords(b, card, h, threshold);
    AppliedSame(b, card, h.id, threshold);
    StillFresh(b, a, hs);
    hide Applied, RecordedAs, Clean;
    LiveOthers(a, card, hs[1..], threshold, h.id);
  }

  lemma {:induction false} LiveIds(b: Book, card: Card, hs: seq<Txn>, threshold: Id -> int)
    requires Clean(b) && DistinctIds(hs) && OwnCaps(card) && forall h :: h in hs ==> Fresh(b, h)
    ensures var live := Run(b, Applies(card, hs), threshold);
      forall h :: h in hs ==> h.id in live.txns && live.txns[h.id].id == h.id && live.txns[h.id].context == h.context
                              && live.txns[h.id].card == h.card && Eligible(live.txns[h.id])
    decreases |hs|
  {
    if hs != [] {
      FirstLive(b, card, hs, threshold);
      TailIds(hs);
      hide Applied, Clean, Fresh, Compute;
      LiveIds(Applied(b, card, hs[0].id, threshold), card, hs[1..], threshold);
      forall h | h in hs && h != hs[0]
        ensures h in hs[1..]
      {
      }
    }
  }

  lemma OrderedDistinct(hs: seq<Txn>)
    requires Ordered(hs) && hs != []
    ensures Ordered(hs[1..])
    ensures forall t :: t in hs <==> t == hs[0] || t in hs[1..]
  {
    OrderedTail(hs);
  }

  lemma {:induction false} LiveMatchesReplay(b: Book, card: Card, range: Range, r: Replay, hs: seq<Txn>,
                                             threshold: Id -> int)
    requires Sound(card) && range.caps.Some? && GoodRange(range) && Clean(b) && Ordered(hs) && DistinctIds(hs)
    requires forall h :: h in hs ==> Pending(b, card, range, h)
    requires forall h :: h in hs ==> h.id in Run(b, Applies(card, hs), threshold).txns
    requires InStep(b, card, range, r, hs)
    ensures var live := Run(b, Applies(card, hs), threshold);
      var ts := LoadedFrom(live, card, range, hs);
      var f := ReplayAll(card, range.caps.value, r, ts, {});
      && SameRows(live.caps, f.rows)
      && (forall u :: u in ts && Within(range.caps.value, u) ==> SameAsLive(f, u))
      && Ids(ts) <= Ids(hs)
    decreases |hs|
  {
    if hs != [] {
      var h, caps := hs[0], range.caps.value;
      assert Pending(b, card, range, h) && Fresh(b, h);
      assert forall j :: j in hs ==> Fresh(b, j);
      var a, live := Applied(b, card, h.id, threshold), Run(b, Applies(card, hs), threshold);
      FirstLive(b, card, hs, threshold);
      TailIds(hs);
      OrderedDistinct(hs);
      var u, rest := live.txns[h.id], LoadedFrom(live, card, range, hs[1..]);
      NextInStep(b, card, range, r, hs, u, threshold);
      forall j | j in hs[1..]
        ensures Pending(a, card, range, j)
      {
        assert j in hs && Pending(b, card, range, j);
      }
      var n := if Selected(card, range, u) then ReplayOne(card, caps, r, u, {}) else r;
      UpdatedIds(card, caps, r, u);
      var ts := LoadedFrom(live, card, range, hs);
      assert ([u] + rest)[1..] == rest && [] + rest == rest;
      assert u.id == h.id && Counts(u, {});
      hide Applied, RecordedAs, ReplayOne, InStep, Clean, Pending, GoodRange, Sound, Selected, Fresh, Ordered,
      DistinctIds;
      LiveMatchesReplay(a, card, range, n, hs[1..], threshold);
      var f := ReplayAll(card, caps, r, ts, {});
      assert f == ReplayAll(card, caps, n, rest, {});
      if Selected(card, range, u) && Within(caps, u) {
        assert u.id !in Ids(rest);
        MovedStable(card, caps, n, rest, {}, u.id);
      }
    }
  }

  lemma UpdatedIds(card: Card, caps: CapRange, r: Replay, u: Txn)
    ensures Counts(u, {}) && Within(caps, u) ==>
              u.id in ReplayOne(card, caps, r, u, {}).moved && u.id in ReplayOne(card, caps, r, u, {}).figures
  {
  }

  lemma {:induction false} LoadedFromOrdered(live: Book, card: Card, range: Range, hs: seq<Txn>)
    requires Ordered(hs)
    requires forall h :: h in hs ==>
             h.id in live.txns && live.txns[h.id].id == h.id && live.txns[h.id].context == h.context
    ensures Ordered(LoadedFrom(live, card, range, hs))
    ensures forall u :: u in LoadedFrom(live, card, range, hs) <==>
                          Selected(card, range, u) && exists h :: h in hs && u == live.txns[h.id]
    decreases |hs|
  {
    if hs != [] {
      OrderedTail(hs);
      LoadedFromOrdered(live, card, range, hs[1..]);
      var u, rest := live.txns[hs[0].id], LoadedFrom(live, card, range, hs[1..]);
      forall v | v in rest
        ensures TimeBefore(u, v)
      {
        var h :| h in hs[1..] && v == live.txns[h.id];
        assert TimeBefore(hs[0], h);
      }
      if Selected(card, range, u) {
        forall i, j | 0 <= i < j < |[u] + rest|
          ensures TimeBefore(([u] + rest)[i], ([u] + rest)[j])
        {
          assert ([u] + rest)[j] == rest[j - 1] && rest[j - 1] in rest;
        }
      } else {
        assert [] + rest == rest;
      }
    }
  }

  /** All of a card's counting spends, in order and not recorded yet; the card has no other record. */
  ghost predicate History(b: Book, card: Card, hs: seq<Txn>) {
    && Ordered(hs) && DistinctIds(hs)
    && (forall h :: h in hs ==> Fresh(b, h) && h.card == card.id && InSpan(DayOf(h)))
    && (forall id :: id in b.txns && b.txns[id].card == card.id ==>
          b.txns[id].id == id && b.txns[id].record.None? && (Eligible(b.txns[id]) ==> b.txns[id] in hs))
    && b.caps == map[] && b.milestones == map[] && b.fees == map[]
  }

  lemma HistoryLoads(b: Book, card: Card, range: Range, hs: seq<Txn>, ts: seq<Txn>, threshold: Id -> int)
    requires OwnCaps(card) && History(b, card, hs)
    requires Loads(Run(b, Applies(card, hs), threshold), card, range, ts)
    ensures forall h :: h in hs ==> h.id in Run(b, Applies(card, hs), threshold).txns
    ensures ts == LoadedFrom(Run(b, Applies(card, hs), threshold), card, range, hs)
  {
    var live := Run(b, Applies(card, hs), threshold);
    LiveIds(b, card, hs, threshold);
    LiveKeys(b, card, hs, threshold);
    LoadedFromOrdered(live, card, range, hs);
    hide Run, Eligible;
    forall u | u in ts
      ensures u in LoadedFrom(live, card, range, hs)
    {
      if u.id !in Ids(hs) {
        LiveOthers(b, card, hs, threshold, u.id);
      } else {
        var h :| h in hs && h.id == u.id;
      }
    }
    forall u | u in LoadedFrom(live, card, range, hs)
      ensures u in ts
    {
      var h :| h in hs && u == live.txns[h.id];
    }
    OrderUnique(ts, LoadedFrom(live, card, range, hs));
  }

  lemma {:induction false} LiveKeys(b: Book, card: Card, hs: seq<Txn>, threshold: Id -> int)
    requires forall h :: h in hs ==> h.id in b.txns
    ensures Run(b, Applies(card, hs), threshold).txns.Keys == b.txns.Keys
    decreases |hs|
  {
    if hs != [] {
      assert Applies(card, hs)[1..] == Applies(card, hs[1..]);
      AppliedKeys(b, card, hs[0].id, threshold);
      hide Applied;
      LiveKeys(Applied(b, card, hs[0].id, threshold), card, hs[1..], threshold);
    }
  }

  lemma AppliedKeys(b: Book, card: Card, id: Id, threshold: Id -> int)
    requires id in b.txns
    ensures Applied(b, card, id, threshold).txns.Keys == b.txns.Keys
  {
  }

  lemma StartsInStep(b: Book, card: Card, range: Range, r: Replay, hs: seq<Txn>)
    requires Sound(card) && range.caps.Some? && GoodRange(range) && b.caps == map[] && r.rows == Slots(card, range)
    ensures InStep(b, card, range, r, hs)
  {
    SlotsDated(card, range);
    hide Slots, GoodRange, Sound;
  }

  /** A card's whole history recorded live, spend by spend in order, and then a rebuild over any
      range: each rebuilt row has the value live recording left, and each replayed spend the same
      entries and expected figures. The spends outside the replay window count as seeds. */
  lemma RebuildMatchesHistory(b: Book, card: Card, range: Range, hs: seq<Txn>, ts: seq<Txn>, threshold: Id -> int)
    requires History(b, card, hs)
    requires Rebuilding(Run(b, Applies(card, hs), threshold), card, range, ts)
    ensures var live, f := Run(b, Applies(card, hs), threshold), ReplayOf(card, range, ts, {});
      && (forall k :: k in RowsOf(card, range, ts, {}) ==> RowsOf(card, range, ts, {})[k].value == Value(live.caps, k))
      && (forall u :: u in ts && Within(range.caps.value, u) ==> SameAsLive(f, u))
  {
    var live, r := Run(b, Applies(card, hs), threshold), Replay(Slots(card, range), map[], map[]);
    assert Sound(card) && OwnCaps(card) && GoodRange(range) && LoadsAll(live, card, range)
           && Loads(live, card, range, ts);
    hide Run, Slots, GoodRange, Sound, Eligible, Rebuilding, GoodBook, Loads, OwnCaps, LoadComplete;
    HistoryLoads(b, card, range, hs, ts, threshold);
    LiveIds(b, card, hs, threshold);
    forall h | h in hs
      ensures Pending(b, card, range, h)
    {
      assert live.txns[h.id].card == card.id;
      assert LoadComplete(card, range, DayOf(live.txns[h.id]));
    }
    StartsInStep(b, card, range, r, hs);
    hide Rebuilding, History, InStep, Pending, Started;
    LiveMatchesReplay(b, card, range, r, hs, threshold);
  }
}
