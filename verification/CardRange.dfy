/** A rebuild's range: which periods it enumerates and why it loads every spend it needs. */
module CardRange {
  import opened Basics
  import opened Cycles
  import opened CardRecords
  import opened CardModel
  import opened CardReplay

  /** `w` is a window of cap `id`. */
  predicate IsWindow(card: Card, id: Id, w: Window) { w == card.windows.cap(id, w.start) }

  predicate Meets(w: Window, start: int, end: int) { w.start <= end && w.end >= start }

  /** Two windows of one cap that share a day are the same window. */
  lemma WindowsDisjoint(card: Card, id: Id, day: int, other: int)
    requires TiledCap(card, id) && InSpan(day) && InSpan(other)
    ensures var w, v := card.windows.cap(id, day), card.windows.cap(id, other);
      && w.start <= day <= w.end && IsWindow(card, id, w)
      && (w.start <= v.end && v.start <= w.end ==> v == w)
  {
  }

  // ---- enumeration -------------------------------------------------------------------------

  ghost predicate Chain(ws: seq<Window>) {
    forall i :: 0 <= i < |ws| - 1 ==> ws[i + 1].start == ws[i].end + 1
  }

  lemma ChainCons(w: Window, rest: seq<Window>)
    requires Chain(rest) && (rest != [] ==> rest[0].start == w.end + 1)
    ensures Chain([w] + rest)
  {
  }

  /** At most `n` consecutive windows from `w` on that meet `[start, end]`, reaching `end` unless
      the limit stops them. */
  ghost predicate Listed(card: Card, id: Id, ws: seq<Window>, w: Window, start: int, end: int, n: nat) {
    && ws != [] && ws[0] == w && |ws| <= n && Chain(ws)
    && (forall v :: v in ws ==> IsWindow(card, id, v) && Meets(v, start, end) && v.start <= v.end)
    && (|ws| < n ==> ws[|ws| - 1].end >= end)
  }

  lemma ListedOne(card: Card, id: Id, w: Window, start: int, end: int, n: nat)
    requires IsWindow(card, id, w) && Meets(w, start, end) && w.start <= w.end && n > 0 && (n == 1 || w.end >= end)
    ensures Listed(card, id, [w], w, start, end, n)
  {
  }

  lemma ListedCons(card: Card, id: Id, w: Window, v: Window, rest: seq<Window>, start: int, end: int, n: nat)
    requires IsWindow(card, id, w) && Meets(w, start, end) && w.start <= w.end
    requires Listed(card, id, rest, v, start, end, n) && v.start == w.end + 1
    ensures Listed(card, id, [w] + rest, w, start, end, n + 1)
  {
    hide IsWindow, Meets, Chain;
    assert ([w] + rest)[|rest|] == rest[|rest| - 1];
    ChainCons(w, rest);
  }

  /** The windows enumerated from `w` on. */
  lemma {:induction false} PeriodsConsecutive(card: Card, id: Id, w: Window, start: int, end: int, n: nat)
    requires TiledCap(card, id) && id !in card.lifetime && IsWindow(card, id, w) && Meets(w, start, end) && n > 0
    ensures Listed(card, id, PeriodsFrom(card, id, w, end, n), w, start, end, n)
    decreases n
  {
    NextPeriod(card, id, w);
    hide TiledCap, IsWindow, Chain, Listed;
    if w.end < end && n > 1 {
      var v := card.windows.cap(id, w.end + 1);
      PeriodsConsecutive(card, id, v, start, end, n - 1);
      ListedCons(card, id, w, v, PeriodsFrom(card, id, v, end, n - 1), start, end, n - 1);
    } else {
      assert PeriodsFrom(card, id, w, end, n) == [w];
      ListedOne(card, id, w, start, end, n);
    }
  }

  /** A window is followed the next day by the next one. */
  lemma NextPeriod(card: Card, id: Id, w: Window)
    requires TiledCap(card, id) && id !in card.lifetime && IsWindow(card, id, w)
    ensures var v := card.windows.cap(id, w.end + 1);
      w.start <= w.end && v.start == w.end + 1 <= v.end && IsWindow(card, id, v)
  {
  }

  lemma {:induction false} ChainCovers(ws: seq<Window>, day: int)
    requires ws != [] && Chain(ws) && ws[0].start <= day <= ws[|ws| - 1].end
    ensures exists i :: 0 <= i < |ws| && ws[i].start <= day <= ws[i].end
  {
    if day > ws[0].end {
      assert ws[1..][|ws| - 2] == ws[|ws| - 1];
      assert ws[1].start == ws[0].end + 1;
      forall i | 0 <= i < |ws[1..]| - 1
        ensures ws[1..][i + 1].start == ws[1..][i].end + 1
      {
        assert ws[i + 2].start == ws[i + 1].end + 1;
      }
      ChainCovers(ws[1..], day);
      var i :| 0 <= i < |ws[1..]| && ws[1..][i].start <= day <= ws[1..][i].end;
      assert ws[i + 1].start <= day <= ws[i + 1].end;
    }
  }

  lemma FirstPeriod(card: Card, id: Id, start: int, end: int, n: nat)
    requires TiledCap(card, id) && id !in card.lifetime && start <= end && n > 0
    ensures var first := card.windows.cap(id, start);
      first.start <= start <= first.end && IsWindow(card, id, first) && Meets(first, start, end)
  {
  }

  /** A window that meets the interval is listed when the list reaches the interval's end. */
  lemma PeriodListed(card: Card, id: Id, start: int, end: int, ws: seq<Window>, w: Window)
    requires TiledCap(card, id) && id !in card.lifetime && IsWindow(card, id, w) && Meets(w, start, end)
    requires ws != [] && Chain(ws) && ws[0].start <= start && ws[|ws| - 1].end >= end && start <= end
    requires forall v :: v in ws ==> IsWindow(card, id, v)
    ensures w in ws
  {
    assert card.windows.cap(id, w.start) == w && w.start <= w.start <= w.end;
    var day := Max(w.start, start);
    ChainCovers(ws, day);
    var i :| 0 <= i < |ws| && ws[i].start <= day <= ws[i].end;
    assert ws[i] in ws;
    assert card.windows.cap(id, ws[i].start) == ws[i];
    assert card.windows.cap(id, day) == ws[i] == w;
  }

  /** `capPeriodsBetween` lists exactly the windows meeting `[start, end]`, provided it reaches
      `end`; and it does reach it when the interval has fewer days than the period limit. */
  lemma PeriodsExact(card: Card, id: Id, start: int, end: int, n: nat)
    requires TiledCap(card, id) && id !in card.lifetime && start <= end && n > 0
    ensures var ws := PeriodsFrom(card, id, card.windows.cap(id, start), end, n);
      && ws != []
      && (end - start < n ==> ws[|ws| - 1].end >= end)
      && (ws[|ws| - 1].end >= end ==>
            forall w :: w in ws <==> IsWindow(card, id, w) && Meets(w, start, end))
  {
    hide TiledCap, PeriodsFrom;
    var first := card.windows.cap(id, start);
    FirstPeriod(card, id, start, end, n);
    PeriodsConsecutive(card, id, first, start, end, n);
    var ws := PeriodsFrom(card, id, first, end, n);
    if |ws| == n {
      PeriodsLast(ws, start);
    }
    if ws[|ws| - 1].end >= end {
      forall w | IsWindow(card, id, w) && Meets(w, start, end)
        ensures w in ws
      {
        PeriodListed(card, id, start, end, ws, w);
      }
    }
  }

  /** Each window after the first adds at least one day past `start`. */
  lemma {:induction false} PeriodsLast(ws: seq<Window>, start: int)
    requires ws != [] && Chain(ws) && ws[0].end >= start
    requires forall v :: v in ws ==> v.start <= v.end
    ensures ws[|ws| - 1].end >= start + |ws| - 1
  {
    if |ws| > 1 {
      assert ws[..|ws| - 1][|ws| - 2] == ws[|ws| - 2];
      PeriodsLast(ws[..|ws| - 1], start);
      assert ws[|ws| - 2 + 1].start == ws[|ws| - 2].end + 1;
    }
  }

  // ---- slots ---------------------------------------------------------------------------------

  /** Rows of the rebuild: each is a period of one of the card's caps, keyed by its start, and
      meets the replay window. */
  ghost predicate DatedRow(card: Card, caps: CapRange, k: Key, row: Row) {
    && k.card == card.id && k.rule in card.caps && row.mark.CapMark?
    && var w := card.windows.cap(k.rule, k.start);
       w.start == k.start && w.end == row.end && Meets(w, caps.start, caps.end)
  }

  ghost predicate DatedRows(card: Card, caps: CapRange, rows: Table) {
    forall k :: k in rows ==> DatedRow(card, caps, k, rows[k])
  }

  ghost predicate GoodRange(range: Range) {
    range.caps.Some? ==> InSpan(range.asOf) && InSpan(range.caps.value.end)
                         && range.caps.value.start <= range.asOf <= range.caps.value.end
                            && InSpan(range.caps.value.start)
  }

  lemma PeriodsDated(card: Card, range: Range, id: Id)
    requires Tiled(card) && id in card.caps && range.caps.Some? && GoodRange(range)
    ensures var ws := PeriodsOf(card, range, id);
      && ws != [] && ws[0] == card.windows.cap(id, range.caps.value.start)
      && forall v :: v in ws ==> IsWindow(card, id, v) && Meets(v, range.caps.value.start, range.caps.value.end)
  {
    var caps := range.caps.value;
    assert TiledCap(card, id);
    var end := Min(caps.end, card.windows.cap(id, range.asOf).end);
    var first := card.windows.cap(id, caps.start);
    if id in card.lifetime {
      assert PeriodsFrom(card, id, first, end, MAX_PERIODS_PER_CAP) == [first];
    } else {
      assert card.windows.cap(id, range.asOf).start <= range.asOf <= card.windows.cap(id, range.asOf).end;
      assert first.start <= caps.start <= first.end;
      assert first.start <= first.start <= first.end;
      PeriodsConsecutive(card, id, first, caps.start, end, MAX_PERIODS_PER_CAP);
    }
  }

  lemma {:induction false} AddSlotsDated(rows: Table, card: Card, caps: CapRange, id: Id, ws: seq<Window>)
    requires DatedRows(card, caps, rows) && id in card.caps
    requires forall v :: v in ws ==> IsWindow(card, id, v) && Meets(v, caps.start, caps.end)
    ensures DatedRows(card, caps, AddSlots(rows, card, id, ws))
    ensures (forall k :: k in rows ==> rows[k].value == 0)
        ==> forall k :: k in AddSlots(rows, card, id, ws) ==> AddSlots(rows, card, id, ws)[k].value == 0
    ensures rows.Keys <= AddSlots(rows, card, id, ws).Keys
    ensures ws != [] ==> Key(card.id, id, ws[0].start) in AddSlots(rows, card, id, ws)
    decreases |ws|
  {
    if ws != [] {
      assert IsWindow(card, id, ws[0]) && Meets(ws[0], caps.start, caps.end);
      AddSlotsDated(rows[Key(card.id, id, ws[0].start) := Row(ws[0].end, 0, CapMark(None, None, ws[0].approximate))],
                    card, caps, id, ws[1..]);
    }
  }

  lemma {:induction false} SlotsForDated(rows: Table, card: Card, range: Range, ids: seq<Id>)
    requires Tiled(card) && range.caps.Some? && GoodRange(range)
    requires DatedRows(card, range.caps.value, rows) && forall k :: k in rows ==> rows[k].value == 0
    requires forall id :: id in ids ==> id in card.caps
    ensures var slots := SlotsFor(rows, card, range, ids);
      && DatedRows(card, range.caps.value, slots) && rows.Keys <= slots.Keys
      && (forall k :: k in slots ==> slots[k].value == 0)
      && (forall id :: id in ids ==> Key(card.id, id, card.windows.cap(id, range.caps.value.start).start) in slots)
    decreases |ids|
  {
    if ids != [] {
      PeriodsDated(card, range, ids[0]);
      var ws := PeriodsOf(card, range, ids[0]);
      AddSlotsDated(rows, card, range.caps.value, ids[0], ws);
      SlotsForDated(AddSlots(rows, card, ids[0], ws), card, range, ids[1..]);
    }
  }

  /** The rebuild starts from empty dated rows, among them every cap's period at the window's start. */
  lemma SlotsDated(card: Card, range: Range)
    requires Tiled(card) && range.caps.Some? && GoodRange(range)
    ensures var slots := Slots(card, range);
      && DatedRows(card, range.caps.value, slots)
      && (forall k :: k in slots ==> slots[k].value == 0)
      && (forall id :: id in card.caps ==>
          Key(card.id, id, card.windows.cap(id, range.caps.value.start).start) in slots)
  {
    SlotsForDated(map[], card, range, card.caps);
  }

  // ---- completeness of the load ----------------------------------------------------------------

  lemma {:induction false} EarliestStartBound(card: Card, ids: seq<Id>, day: int, acc: int)
    ensures EarliestStart(card, ids, day, acc) <= acc
    ensures forall id :: id in ids ==> EarliestStart(card, ids, day, acc) <= card.windows.cap(id, day).start
    decreases |ids|
  {
    if ids != [] {
      EarliestStartBound(card, ids[1..], day, Min(acc, card.windows.cap(ids[0], day).start));
    }
  }

  lemma {:induction false} LatestEndBound(card: Card, ids: seq<Id>, day: int, acc: int, lifetimes: bool)
    ensures LatestEnd(card, ids, day, acc, lifetimes) >= acc
    ensures forall id :: id in ids && (lifetimes || id !in card.lifetime)
              ==> LatestEnd(card, ids, day, acc, lifetimes) >= card.windows.cap(id, day).end
    decreases |ids|
  {
    if ids != [] {
      LatestEndBound(card, ids[1..], day,
                     if ids[0] in card.lifetime && !lifetimes then acc else Max(acc, card.windows.cap(ids[0], day).end),
                     lifetimes);
    }
  }

  lemma {:induction false} LoadBounds(req: Request, spans: seq<Span>, from: Option<int>, to: Option<int>)
    ensures var f, l := LoadFrom(req, spans, from), LoadTo(spans, to);
      && (from.Some? ==> f.Some? && f.value <= from.value)
      && (to.Some? ==> l.Some? && l.value >= to.value)
      && (forall i :: 0 <= i < |spans| ==>
            f.Some? && f.value <= AtFloor(req, spans[i].window.start) && l.Some? && l.value >= spans[i].window.end)
    decreases |spans|
  {
    if spans != [] {
      var s := AtFloor(req, spans[0].window.start);
      LoadBounds(req, spans[1..], Some(if from.None? then s else Min(from.value, s)),
                 Some(if to.None? then spans[0].window.end else Max(to.value, spans[0].window.end)));
    }
  }

  /** The replay window holds `asOf`. */
  lemma RangeHoldsAsOf(card: Card, req: Request)
    ensures var range := RangeOf(card, req);
      range.asOf == req.asOf && (range.caps.Some? ==> range.caps.value.start <= req.asOf <= range.caps.value.end)
  {
    LatestEndBound(card, card.caps, req.asOf, req.asOf, false);
    EarliestStartBound(card, card.caps, req.asOf, req.asOf);
  }

  /** Every day of the card whose cap window meets the replay window, or which lies in a rebuilt
      milestone window, is loaded: windows that straddle either edge, lifetime windows and the
      floor clip included. */
  lemma RangeComplete(card: Card, req: Request, day: int)
    requires Tiled(card) && GoodRange(RangeOf(card, req)) && InSpan(day)
    requires req.floor.Some? ==> req.floor.value <= day
    ensures var range := RangeOf(card, req);
      && (range.caps.Some? ==>
            forall id :: id in card.caps && Meets(card.windows.cap(id, day), range.caps.value.start,
                                                  range.caps.value.end)
              ==> range.loadFrom.Some? && range.loadTo.Some? && range.loadFrom.value <= day <= range.loadTo.value)
      && (forall i ::
            (0 <= i < |range.milestones|
             && range.milestones[i].window.start <= day <= range.milestones[i].window.end) ==>
              range.loadFrom.Some? && range.loadTo.Some? && range.loadFrom.value <= day <= range.loadTo.value)
  {
    var range := RangeOf(card, req);
    var from := if range.caps.Some? then Some(range.caps.value.seedFrom) else None;
    var to := if range.caps.Some? then Some(range.caps.value.seedTo) else None;
    LoadBounds(req, range.milestones, from, to);
    if range.caps.Some? {
      var caps := range.caps.value;
      RangeHoldsAsOf(card, req);
      forall id | id in card.caps && Meets(card.windows.cap(id, day), caps.start, caps.end)
        ensures range.loadFrom.Some? && range.loadTo.Some? && range.loadFrom.value <= day <= range.loadTo.value
      {
        assert TiledCap(card, id);
        WindowsDisjoint(card, id, day, caps.start);
        WindowsDisjoint(card, id, day, caps.end);
        WindowsDisjoint(card, id, caps.start, day);
        WindowsDisjoint(card, id, caps.end, day);
        EarliestStartBound(card, card.caps, caps.start, caps.start);
        LatestEndBound(card, card.caps, caps.end, caps.end, true);
      }
    }
  }
}
