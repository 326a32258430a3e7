/** A user card, its transactions and its counter rows.
    The reward engine and the calendar are functions the card carries: the engine is any
    deterministic pricing with non-negative consumption; the windows are those of `Cycles`,
    of which only `Tiled` is used here (`CardWindows` shows they satisfy it). */
module CardModel {
  import opened Basics
  import opened Cycles
  import opened CardRecords

  /** What a spend is priced on; `detail` stands for merchant name, VPA, MCC and rail. */
  datatype Context = Context(amount: nat, occurred: int, category: Option<Id>, detail: nat)

  datatype AppliedCap = AppliedCap(id: Id, kind: Kind, amount: int)

  /** The caps a spend counts against, or that the engine excludes the spend. */
  datatype CapPlan = CapPlan(caps: seq<AppliedCap>, excluded: bool)

  /** The engine's result: consumption per cap, and the figures kept on the transaction. */
  datatype Priced = Priced(deltas: map<Id, nat>, native: int, value: int, cashback: Option<int>, excluded: bool)

  datatype Engine = Engine(plan: Context -> CapPlan, price: (Context, map<Id, int>) -> Priced)

  /** Windows by day: India days for caps and milestones, UTC days for fee waivers. */
  datatype Windows = Windows(cap: (Id, int) -> Window, milestone: (Id, int) -> Option<Window>, fee: (Id, int) -> Bounds)

  datatype Rule = Rule(id: Id, excludedCategories: set<Id>)

  /** `caps` are the ids of the cap rules, `lifetime` those of them with period lifetime. */
  datatype Card = Card(id: Id, caps: seq<Id>, lifetime: set<Id>, milestones: seq<Rule>, fees: seq<Rule>,
                       excludedCategories: set<Id>, nativeAmount: (Id, Kind) -> Option<int>,
                       engine: Engine, windows: Windows)

  datatype Mark =
    | CapMark(kind: Option<Kind>, amount: Option<int>, approximate: bool)
    | MilestoneMark(approximate: bool)
    | FeeMark(waived: bool)

  datatype Row = Row(end: int, value: int, mark: Mark)

  type Table = map<Key, Row>

  datatype Expected = Expected(native: Option<int>, value: Option<int>, cashback: Option<int>)

  datatype Txn = Txn(id: Id, card: Id, context: Context, active: bool, creditCard: bool, spend: bool, backfill: bool,
                     expected: Expected, record: Option<Record>)

  /** The stored state: the three counter tables, the transactions and the estimated ledger rows. */
  datatype Book = Book(caps: Table, milestones: Table, fees: Table, txns: map<Id, Txn>, ledger: map<Id, int>)

  function TableOf(b: Book, section: Section): Table {
    match section
    case Caps => b.caps
    case Milestones => b.milestones
    case Fees => b.fees
  }

  /** A missing row counts nothing. */
  function Value(t: Table, k: Key): int {
    if k in t then t[k].value else 0
  }

  function DayOf(t: Txn): int { IstDay(t.context.occurred) }

  predicate Eligible(t: Txn) {
    t.active && t.creditCard && t.spend && !t.backfill
  }

  // ---- what one spend moves ------------------------------------------------------------

  /** A cap entry as priced: the record keeps `entry`, the row also the amount and the flag. */
  datatype Move = Move(entry: Entry, amount: int, approximate: bool)

  function PlannedIds(caps: seq<AppliedCap>): set<Id> {
    set a | a in caps :: a.id
  }

  /** Each applicable cap's consumption before the spend, in the window of `day`. */
  function ConsumedBefore(card: Card, rows: Table, caps: seq<AppliedCap>, day: int): map<Id, int> {
    map id | id in PlannedIds(caps) :: Value(rows, Key(card.id, id, card.windows.cap(id, day).start))
  }

  function CapMoves(card: Card, caps: seq<AppliedCap>, deltas: map<Id, nat>, day: int): seq<Move> {
    if caps == [] then []
    else
      var a, rest := caps[0], CapMoves(card, caps[1..], deltas, day);
      if a.id !in deltas || deltas[a.id] == 0 then rest
      else
        var w := card.windows.cap(a.id, day);
        [Move(Entry(a.id, w.start, w.end, deltas[a.id], Some(a.kind)), a.amount, w.approximate)] + rest
  }

  function Entries(moves: seq<Move>): (es: seq<Entry>)
    ensures |es| == |moves|
    ensures forall i :: 0 <= i < |moves| ==> es[i] == moves[i].entry
  {
    if moves == [] then [] else [moves[0].entry] + Entries(moves[1..])
  }

  datatype Outcome = Outcome(moves: seq<Move>, native: int, value: int, cashback: Option<int>, excluded: bool)

  /** `computeTransactionV2`, against the consumption `rows` show. */
  function Compute(card: Card, ctx: Context, rows: Table): Outcome {
    var plan, day := card.engine.plan(ctx), IstDay(ctx.occurred);
    var priced := card.engine.price(ctx, ConsumedBefore(card, rows, plan.caps, day));
    Outcome(CapMoves(card, plan.caps, priced.deltas, day), priced.native, priced.value, priced.cashback,
            priced.excluded || plan.excluded)
  }

  function MilestoneMoves(card: Card, rules: seq<Rule>, ctx: Context): seq<Move> {
    if rules == [] then []
    else
      var m, rest := rules[0], MilestoneMoves(card, rules[1..], ctx);
      var w := card.windows.milestone(m.id, IstDay(ctx.occurred));
      if ctx.category.Some? && ctx.category.value in m.excludedCategories then rest
      else if w.None? then rest
      else [Move(Entry(m.id, w.value.start, w.value.end, ctx.amount, None), 0, w.value.approximate)] + rest
  }

  /** `milestoneEntries`. */
  function MilestoneEntries(card: Card, ctx: Context, excluded: bool): seq<Move> {
    if excluded || ctx.amount == 0 then []
    else if ctx.category.Some? && ctx.category.value in card.excludedCategories then []
    else MilestoneMoves(card, card.milestones, ctx)
  }

  function FeeMoves(card: Card, rules: seq<Rule>, ctx: Context): seq<Move> {
    if rules == [] then []
    else
      var f, rest := rules[0], FeeMoves(card, rules[1..], ctx);
      if ctx.category.Some? && ctx.category.value in f.excludedCategories then rest
      else
        var w := card.windows.fee(f.id, UtcDay(ctx.occurred));
        [Move(Entry(f.id, w.start, w.end, ctx.amount, None), 0, false)] + rest
  }

  function FeeEntries(card: Card, ctx: Context, excluded: bool): seq<Move> {
    if excluded then [] else FeeMoves(card, card.fees, ctx)
  }

  // ---- the documented invariant ----------------------------------------------------------

  /** The sum of the matching entries in the records of `txns`. */
  ghost function Total(txns: map<Id, Txn>, section: Section, k: Key): nat
    decreases |txns|
  {
    if txns == map[] then 0
    else
      var id :| id in txns;
      RecordSum(txns[id].record, section, k) + Total(txns - {id}, section, k)
  }

  lemma {:induction false} TotalPick(txns: map<Id, Txn>, id: Id, section: Section, k: Key)
    requires id in txns
    ensures Total(txns, section, k) == RecordSum(txns[id].record, section, k) + Total(txns - {id}, section, k)
    decreases |txns|
  {
    var first :| first in txns
      && Total(txns, section, k) == RecordSum(txns[first].record, section, k) + Total(txns - {first}, section, k);
    if first != id {
      TotalPick(txns - {first}, id, section, k);
      TotalPick(txns - {id}, first, section, k);
      assert txns - {first} - {id} == txns - {id} - {first};
    }
  }

  lemma TotalUpdate(txns: map<Id, Txn>, t: Txn, section: Section, k: Key)
    requires t.id in txns
    ensures Total(txns[t.id := t], section, k)
         == Total(txns, section, k) - RecordSum(txns[t.id].record, section, k) + RecordSum(t.record, section, k)
  {
    TotalPick(txns, t.id, section, k);
    TotalPick(txns[t.id := t], t.id, section, k);
    assert txns[t.id := t] - {t.id} == txns - {t.id};
  }

  lemma {:induction false} TotalSame(a: map<Id, Txn>, b: map<Id, Txn>, section: Section, k: Key)
    requires a.Keys == b.Keys
    requires forall id :: id in a ==> RecordSum(a[id].record, section, k) == RecordSum(b[id].record, section, k)
    ensures Total(a, section, k) == Total(b, section, k)
    decreases |a|
  {
    if a == map[] {
      assert b == map[];
    } else {
      var id :| id in a;
      TotalPick(a, id, section, k);
      TotalPick(b, id, section, k);
      TotalSame(a - {id}, b - {id}, section, k);
    }
  }

  lemma {:induction false} TotalZero(txns: map<Id, Txn>, section: Section, k: Key)
    requires forall id :: id in txns ==> RecordSum(txns[id].record, section, k) == 0
    ensures Total(txns, section, k) == 0
    decreases |txns|
  {
    if txns != map[] {
      var id :| id in txns;
      TotalPick(txns, id, section, k);
      TotalZero(txns - {id}, section, k);
    }
  }

  lemma TotalMember(txns: map<Id, Txn>, id: Id, section: Section, k: Key)
    requires id in txns
    ensures RecordSum(txns[id].record, section, k) <= Total(txns, section, k)
  {
  }

  // ---- well-formed cards and books -------------------------------------------------------

  predicate InSpan(day: int) { LIFETIME_START <= day <= LIFETIME_END }

  /** The windows of cap `id`: one window for ever, or a tiling of the days. */
  ghost predicate TiledCap(card: Card, id: Id) {
    if id in card.lifetime then
      forall day ::
        var w := card.windows.cap(id, day);
        w.start == LIFETIME_START && w.end == LIFETIME_END && w == card.windows.cap(id, 0)
    else
      forall day, other ::
        var w, v := card.windows.cap(id, day), card.windows.cap(id, other);
        && w.start <= day <= w.end
        && (w.start <= other <= w.end ==> v == w)
        && (other < w.start ==> v.end < w.start)
        && (other == w.end + 1 ==> v.start == w.end + 1)
  }

  ghost predicate TiledMilestone(card: Card, id: Id) {
    forall day, other ::
      var w, v := card.windows.milestone(id, day), card.windows.milestone(id, other);
      w.Some? ==>
        && (InSpan(day) ==> w.value.start <= day <= w.value.end)
        && (v.Some? && w.value.start <= v.value.end && v.value.start <= w.value.end ==> v == w)
        && (InSpan(other) && w.value.start <= other <= w.value.end ==> v == w)
  }

  ghost predicate Tiled(card: Card) {
    forall id :: id in card.caps ==> TiledCap(card, id)
  }

  ghost predicate TiledMilestones(card: Card) {
    forall m :: m in card.milestones ==> TiledMilestone(card, m.id)
  }

  /** The engine names only the card's own caps. */
  ghost predicate OwnCaps(card: Card) {
    forall ctx, a :: a in card.engine.plan(ctx).caps ==> a.id in card.caps
  }

  ghost predicate Sound(card: Card) { Tiled(card) && OwnCaps(card) }
}
