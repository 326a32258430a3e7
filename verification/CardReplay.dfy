/** The rebuild plan: which periods and transactions it covers, the replay of the ledger in date
    order, and the writes that follow from it. */
module CardReplay {
  import opened Basics
  import opened Calendar
  import opened Cycles
  import opened CardRecords
  import opened CardModel

  const MAX_PERIODS_PER_CAP := 5000

  // ---- range -------------------------------------------------------------------------------

  datatype CapRange = CapRange(start: int, end: int, seedFrom: int, seedTo: int)

  datatype Span = Span(id: Id, window: Window)

  datatype Range = Range(asOf: int, caps: Option<CapRange>, milestones: seq<Span>,
                         loadFrom: Option<int>, loadTo: Option<int>)

  /** The options of a rebuild; `asOf`, `since` and `floor` are days. */
  datatype Request = Request(asOf: int, since: Option<int>, caps: bool, milestones: bool, expected: bool,
                             floor: Option<int>)

  /** The rebuild an apply makes when it meets a row of the v1 path: the caps around the spend. */
  function Around(t: Txn, floor: int): Request {
    Request(DayOf(t), None, true, false, false, Some(floor))
  }

  /** `cardFloorDay`: the earlier of the day the card was opened and its first transaction's, and
      `asOf` when it has neither. */
  ghost predicate IsFloor(txns: map<Id, Txn>, card: Card, openedOn: Option<int>, asOf: int, floor: int) {
    && (openedOn.Some? ==> floor <= openedOn.value)
    && (forall id :: id in txns && txns[id].card == card.id ==> floor <= DayOf(txns[id]))
    && (|| openedOn == Some(floor)
        || (exists id :: id in txns && txns[id].card == card.id && DayOf(txns[id]) == floor)
        || (openedOn.None? && (forall id :: id in txns ==> txns[id].card != card.id) && floor == asOf))
  }

  function MonthFirst(day: int): int { MakeDay(YearOf(day), MonthOf(day), 1) }

  function AtFloor(req: Request, day: int): int {
    if req.floor.Some? then Max(day, Min(req.floor.value, req.asOf)) else day
  }

  /** The earliest start of the caps' windows containing `day`, and no later than `acc`. */
  function EarliestStart(card: Card, ids: seq<Id>, day: int, acc: int): int
    decreases |ids|
  {
    if ids == [] then acc
    else EarliestStart(card, ids[1..], day, Min(acc, card.windows.cap(ids[0], day).start))
  }

  /** The latest end of the windows containing `day`; the replay end leaves lifetime caps out. */
  function LatestEnd(card: Card, ids: seq<Id>, day: int, acc: int, lifetimes: bool): int
    decreases |ids|
  {
    if ids == [] then acc
    else if ids[0] in card.lifetime && !lifetimes then LatestEnd(card, ids[1..], day, acc, lifetimes)
    else LatestEnd(card, ids[1..], day, Max(acc, card.windows.cap(ids[0], day).end), lifetimes)
  }

  function CapRangeOf(card: Card, req: Request): CapRange {
    var end := LatestEnd(card, card.caps, req.asOf, req.asOf, false);
    var start0 := EarliestStart(card, card.caps, req.asOf, req.asOf);
    var start1 := if req.expected then Min(start0, MonthFirst(req.asOf)) else start0;
    var start := AtFloor(req, if req.since.Some? then Min(start1, req.since.value) else start1);
    CapRange(start, end, AtFloor(req, EarliestStart(card, card.caps, start, start)),
             LatestEnd(card, card.caps, end, end, true))
  }

  function SpansOf(card: Card, rules: seq<Rule>, day: int): seq<Span> {
    if rules == [] then []
    else
      var w := card.windows.milestone(rules[0].id, day);
      (if w.Some? then [Span(rules[0].id, w.value)] else []) + SpansOf(card, rules[1..], day)
  }

  function LoadFrom(req: Request, spans: seq<Span>, acc: Option<int>): Option<int>
    decreases |spans|
  {
    if spans == [] then acc
    else
      var s := AtFloor(req, spans[0].window.start);
      LoadFrom(req, spans[1..], Some(if acc.None? then s else Min(acc.value, s)))
  }

  function LoadTo(spans: seq<Span>, acc: Option<int>): Option<int>
    decreases |spans|
  {
    if spans == [] then acc
    else LoadTo(spans[1..], Some(if acc.None? then spans[0].window.end else Max(acc.value, spans[0].window.end)))
  }

  /** `rebuildRange`. */
  function RangeOf(card: Card, req: Request): Range {
    var caps := if req.caps || req.expected then Some(CapRangeOf(card, req)) else None;
    var spans := if req.milestones then SpansOf(card, card.milestones, req.asOf) else [];
    Range(req.asOf, caps, spans, LoadFrom(req, spans, if caps.Some? then Some(caps.value.seedFrom) else None),
          LoadTo(spans, if caps.Some? then Some(caps.value.seedTo) else None))
  }

  // ---- periods -----------------------------------------------------------------------------

  /** `capPeriodsBetween` from the window `w`, with `n` periods still allowed. */
  function PeriodsFrom(card: Card, id: Id, w: Window, end: int, n: nat): seq<Window>
    decreases n
  {
    if n == 0 then []
    else if w.end >= end then [w]
    else [w] + PeriodsFrom(card, id, card.windows.cap(id, w.end + 1), end, n - 1)
  }

  /** The periods a rebuild enumerates for one cap: none past its own period containing `asOf`. */
  function PeriodsOf(card: Card, range: Range, id: Id): seq<Window>
    requires range.caps.Some?
  {
    PeriodsFrom(card, id, card.windows.cap(id, range.caps.value.start),
                Min(range.caps.value.end, card.windows.cap(id, range.asOf).end), MAX_PERIODS_PER_CAP)
  }

  function AddSlots(rows: Table, card: Card, id: Id, ws: seq<Window>): Table
    decreases |ws|
  {
    if ws == [] then rows
    else AddSlots(rows[Key(card.id, id, ws[0].start) := Row(ws[0].end, 0, CapMark(None, None, ws[0].approximate))],
                  card, id, ws[1..])
  }

  function SlotsFor(rows: Table, card: Card, range: Range, ids: seq<Id>): Table
    requires range.caps.Some?
    decreases |ids|
  {
    if ids == [] then rows
    else SlotsFor(AddSlots(rows, card, ids[0], PeriodsOf(card, range, ids[0])), card, range, ids[1..])
  }

  /** `capRows` before the replay: an empty row for every enumerated period. */
  function Slots(card: Card, range: Range): Table
    requires range.caps.Some?
  {
    SlotsFor(map[], card, range, card.caps)
  }

  // ---- replay ------------------------------------------------------------------------------

  /** Active credit-card spends that are not backfill and not excluded from this rebuild. */
  predicate Counts(t: Txn, excluded: set<Id>) {
    Eligible(t) && t.id !in excluded
  }

  predicate Within(caps: CapRange, t: Txn) {
    caps.start <= DayOf(t) <= caps.end
  }

  function KeyOf(card: Card, e: Entry): Key { Key(card.id, e.id, e.start) }

  /** `addToCapRow` on a row being rebuilt: the first entry with a kind names kind and amount. */
  function AddToRow(card: Card, row: Row, e: Entry, amount: Option<int>): Row {
    var counted := row.(value := row.value + e.delta);
    if row.mark.CapMark? && row.mark.kind.None? && e.kind.Some? then
      counted.(mark := CapMark(e.kind, if amount.Some? then amount else card.nativeAmount(e.id, e.kind.value),
                               row.mark.approximate))
    else counted
  }

  /** A stored entry counts in a row being rebuilt only. */
  function SeedRow(card: Card, rows: Table, e: Entry): Table {
    var k := KeyOf(card, e);
    if k in rows then rows[k := AddToRow(card, rows[k], e, None)] else rows
  }

  /** A seed counts through its stored entries. */
  function SeedRows(card: Card, rows: Table, es: seq<Entry>): Table
    decreases |es|
  {
    if es == [] then rows else SeedRows(card, SeedRow(card, rows, es[0]), es[1..])
  }

  /** A replayed spend counts through its new entries, adding a row the enumeration missed. */
  function MoveRows(card: Card, rows: Table, moves: seq<Move>): Table
    decreases |moves|
  {
    if moves == [] then rows
    else
      var e, k := moves[0].entry, KeyOf(card, moves[0].entry);
      var row := if k in rows then AddToRow(card, rows[k], e, Some(moves[0].amount))
                 else Row(e.end, e.delta, CapMark(e.kind, Some(moves[0].amount), moves[0].approximate));
      MoveRows(card, rows[k := row], moves[1..])
  }

  /** The rows so far, and the new cap entries and figures of every replayed spend. */
  datatype Replay = Replay(rows: Table, moved: map<Id, seq<Entry>>, figures: map<Id, Expected>)

  function ReplayOne(card: Card, caps: CapRange, r: Replay, t: Txn, excluded: set<Id>): Replay {
    if !Counts(t, excluded) then r
    else if !Within(caps, t) then r.(rows := SeedRows(card, r.rows, EntriesOf(t.record, Caps)))
    else
      var out := Compute(card, t.context, r.rows);
      Replay(MoveRows(card, r.rows, out.moves), r.moved[t.id := Entries(out.moves)],
             r.figures[t.id := Expected(Some(out.native), Some(out.value), out.cashback)])
  }

  function ReplayAll(card: Card, caps: CapRange, r: Replay, ts: seq<Txn>, excluded: set<Id>): Replay
    decreases |ts|
  {
    if ts == [] then r else ReplayAll(card, caps, ReplayOne(card, caps, r, ts[0], excluded), ts[1..], excluded)
  }

  /** The replay of the loaded transactions `ts`, ordered by time and id. */
  function ReplayOf(card: Card, range: Range, ts: seq<Txn>, excluded: set<Id>): Replay {
    if range.caps.None? then Replay(map[], map[], map[])
    else ReplayAll(card, range.caps.value, Replay(Slots(card, range), map[], map[]), ts, excluded)
  }

  // ---- milestones --------------------------------------------------------------------------

  function MilestoneSlots(rows: Table, card: Card, spans: seq<Span>): Table
    decreases |spans|
  {
    if spans == [] then rows
    else
      var w := spans[0].window;
      MilestoneSlots(rows[Key(card.id, spans[0].id, w.start) := Row(w.end, 0, MilestoneMark(w.approximate))],
                     card, spans[1..])
  }

  /** The milestone entries of a spend for the windows being rebuilt. */
  function NewMilestones(card: Card, slots: Table, ctx: Context): seq<Entry> {
    Keep(Entries(MilestoneEntries(card, ctx, card.engine.plan(ctx).excluded)), e => KeyOf(card, e) in slots)
  }

  function AddMilestoneEntries(card: Card, rows: Table, es: seq<Entry>): Table
    decreases |es|
  {
    if es == [] then rows
    else
      var k := KeyOf(card, es[0]);
      AddMilestoneEntries(card, if k in rows then rows[k := rows[k].(value := rows[k].value + es[0].delta)] else rows,
                          es[1..])
  }

  function MilestoneReplay(card: Card, slots: Table, rows: Table, ts: seq<Txn>, excluded: set<Id>): Table
    decreases |ts|
  {
    if ts == [] then rows
    else
      MilestoneReplay(card, slots,
                      if Counts(ts[0], excluded) then AddMilestoneEntries(card, rows,
                          NewMilestones(card, slots, ts[0].context))
                      else rows, ts[1..], excluded)
  }

  // ---- records -----------------------------------------------------------------------------

  /** An entry of one of the card's caps whose period overlaps the replay window is superseded. */
  predicate SupersededCap(card: Card, caps: CapRange, rows: Table, e: Entry) {
    KeyOf(card, e) in rows || (e.id in card.caps && e.start <= caps.end && e.end >= caps.start)
  }

  predicate SupersededMilestone(card: Card, spans: seq<Span>, slots: Table, e: Entry) {
    || KeyOf(card, e) in slots
    || exists i ::
         && 0 <= i < |spans| && spans[i].id == e.id
         && e.start <= spans[i].window.end && e.end >= spans[i].window.start
  }

  function NextCaps(card: Card, range: Range, replay: Replay, t: Txn, excluded: set<Id>): seq<Entry> {
    var stored := EntriesOf(t.record, Caps);
    if range.caps.None? || (t.id !in replay.moved && Counts(t, excluded)) then stored
    else
      Keep(stored, e => !SupersededCap(card, range.caps.value, replay.rows, e))
      + if Counts(t, excluded) then replay.moved[t.id] else []
  }

  function NextMilestones(card: Card, range: Range, slots: Table, t: Txn, excluded: set<Id>): seq<Entry> {
    var stored := EntriesOf(t.record, Milestones);
    if slots == map[] then stored
    else
      Keep(stored, e => !SupersededMilestone(card, range.milestones, slots, e))
      + if Counts(t, excluded) then NewMilestones(card, slots, t.context) else []
  }

  function NextRecord(card: Card, range: Range, replay: Replay, slots: Table, t: Txn, excluded: set<Id>): Option<Record>
  {
    ToRecord(card.id, NextCaps(card, range, replay, t, excluded), NextMilestones(card, range, slots, t, excluded),
             EntriesOf(t.record, Fees))
  }

  // ---- the plan and its writes -------------------------------------------------------------

  /** Planned rows with the keys to write and to delete, the records and the figures that change. */
  datatype Plan = Plan(caps: Table, capsChanged: set<Key>, capsToDelete: set<Key>,
                       milestones: Table, milestonesChanged: set<Key>, milestonesToDelete: set<Key>,
                       records: map<Id, Option<Record>>, expected: map<Id, Expected>)

  function Positive(rows: Table): Table {
    map k | k in rows && rows[k].value > 0 :: rows[k]
  }

  /** Keys of rebuilt rows whose stored row is not already the planned one. */
  function Changed(rows: Table, existing: Table): set<Key> {
    set k | k in rows && (k in existing || rows[k].value > 0)
            && !(k in existing && rows[k].value > 0 && existing[k] == rows[k])
  }

  function Emptied(rows: Table, existing: Table): set<Key> {
    set k | k in rows && k in existing && rows[k].value <= 0
  }

  /** Stored rows of the card's caps that overlap the replay window and were not rebuilt. */
  function Moved(card: Card, range: Range, rows: Table, existing: Table): set<Key> {
    if range.caps.None? then {}
    else
      set k | k in existing && k !in rows && k.rule in card.caps
              && k.start <= range.caps.value.end && existing[k].end >= range.caps.value.start
  }

  predicate OverlapsSpan(spans: seq<Span>, k: Key, row: Row) {
    exists i :: 0 <= i < |spans| && spans[i].id == k.rule
                && k.start <= spans[i].window.end && row.end >= spans[i].window.start
  }

  function InScope(spans: seq<Span>, existing: Table): Table {
    map k | k in existing && OverlapsSpan(spans, k, existing[k]) :: existing[k]
  }

  function Ids(ts: seq<Txn>): set<Id> {
    set t | t in ts :: t.id
  }

  predicate DistinctIds(ts: seq<Txn>) {
    forall i, j :: 0 <= i < j < |ts| ==> ts[i].id != ts[j].id
  }

  function RecordUpdates(card: Card, range: Range, replay: Replay, slots: Table, ts: seq<Txn>, excluded: set<Id>)
    : map<Id, Option<Record>>
    decreases |ts|
  {
    if ts == [] then map[]
    else
      var rest := RecordUpdates(card, range, replay, slots, ts[1..], excluded);
      var next := NextRecord(card, range, replay, slots, ts[0], excluded);
      if ts[0].id in excluded || Canonical(next) == Canonical(ts[0].record) then rest else rest[ts[0].id := next]
  }

  function ExpectedUpdates(replay: Replay, ts: seq<Txn>): map<Id, Expected>
    decreases |ts|
  {
    if ts == [] then map[]
    else
      var rest := ExpectedUpdates(replay, ts[1..]);
      if ts[0].id in replay.figures && replay.figures[ts[0].id] != ts[0].expected then rest[ts[0].id :=
          replay.figures[ts[0].id]]
      else rest
  }

  /** `planReplay` over ordered transactions. */
  function PlanOf(card: Card, range: Range, ts: seq<Txn>, expected: bool, excluded: set<Id>,
                  existingCaps: Table, existingMilestones: Table): Plan {
    var replay := ReplayOf(card, range, ts, excluded);
    var slots := MilestoneSlots(map[], card, range.milestones);
    var milestones := MilestoneReplay(card, slots, slots, ts, excluded);
    var scope := InScope(range.milestones, existingMilestones);
    Plan(Positive(replay.rows), Changed(replay.rows, existingCaps),
         Moved(card, range, replay.rows, existingCaps) + Emptied(replay.rows, existingCaps),
         Positive(milestones), Changed(milestones, scope),
         (set k | k in scope && k !in milestones) + Emptied(milestones, scope),
         RecordUpdates(card, range, replay, slots, ts, excluded),
         if expected then ExpectedUpdates(replay, ts) else map[])
  }

  function Written(table: Table, rows: Table, changed: set<Key>, deletes: set<Key>): Table {
    table + (map k | k in rows && k in changed :: rows[k]) - deletes
  }

  function UpdatedTxn(plan: Plan, t: Txn): Txn {
    t.(record := if t.id in plan.records then plan.records[t.id] else t.record,
       expected := if t.id in plan.expected then plan.expected[t.id] else t.expected)
  }

  function UpdatedLedger(ledger: map<Id, int>, expected: map<Id, Expected>): map<Id, int> {
    (map id | id in ledger && id !in expected :: ledger[id])
    + (map id | id in expected && expected[id].native.Some? && expected[id].native.value > 0 ::
       expected[id].native.value)
  }

  /** `applyCardRebuild`: writes only what differs. */
  function ApplyPlan(b: Book, plan: Plan): Book {
    Book(Written(b.caps, plan.caps, plan.capsChanged, plan.capsToDelete),
         Written(b.milestones, plan.milestones, plan.milestonesChanged, plan.milestonesToDelete),
         b.fees, map id | id in b.txns :: UpdatedTxn(plan, b.txns[id]), UpdatedLedger(b.ledger, plan.expected))
  }

  // ---- what the database delivers --------------------------------------------------------------

  predicate TimeBefore(a: Txn, b: Txn) {
    a.context.occurred < b.context.occurred || (a.context.occurred == b.context.occurred && a.id < b.id)
  }

  predicate Ordered(ts: seq<Txn>) {
    forall i, j :: 0 <= i < j < |ts| ==> TimeBefore(ts[i], ts[j])
  }

  /** The rows a rebuild selects: the card's, in the day range, counting or still with a record. */
  predicate Selected(card: Card, range: Range, t: Txn) {
    && t.card == card.id
    && range.loadFrom.Some? && range.loadTo.Some? && range.loadFrom.value <= DayOf(t) <= range.loadTo.value
    && (t.record.Some? || Eligible(t))
  }

  ghost predicate Loads(b: Book, card: Card, range: Range, ts: seq<Txn>) {
    && Ordered(ts)
    && (forall t :: t in ts <==> t.id in b.txns && b.txns[t.id] == t && Selected(card, range, t))
  }

  function ExistingCaps(b: Book, card: Card, range: Range): Table {
    if range.caps.None? then map[]
    else map k | k in b.caps && k.card == card.id && k.start <= range.caps.value.end
                 && b.caps[k].end >= range.caps.value.start :: b.caps[k]
  }

  predicate HasSpan(spans: seq<Span>, id: Id) {
    exists i :: 0 <= i < |spans| && spans[i].id == id
  }

  function ExistingMilestones(b: Book, card: Card, range: Range): Table {
    map k | k in b.milestones && k.card == card.id && HasSpan(range.milestones, k.rule) :: b.milestones[k]
  }

  /** `rebuildCardState` over a range, given the selected transactions in order. */
  function Rebuilt(b: Book, card: Card, range: Range, expected: bool, ts: seq<Txn>, excluded: set<Id>): Book {
    ApplyPlan(b, PlanOf(card, range, ts, expected, excluded, ExistingCaps(b, card, range),
                        ExistingMilestones(b, card, range)))
  }
}
