/** Foreign payments: from a message or a statement line to one confirmed rupee transaction, and what
    a later change of that transaction does to the payment. Each operation holds the profile's ingest
    lock and is one step; a refusal rolls it back. */
module ForeignPayments {
  import opened Basics
  import opened Money

  type Id = nat

  datatype Status = AwaitingAmount | AwaitingRate | Estimated | Confirmed | Ignored

  datatype Source = User | Sms | Statement

  datatype Rate = Rate(value: Decimal, day: int)

  /** Amounts in rupees are in paise, times in milliseconds, and a reference is without its dashes;
      `details` stands for the fields nothing here depends on. */
  datatype Payment = Payment(key: nat, status: Status, currency: Option<nat>, amount: Option<Decimal>, occurred: int,
                             card: Option<Id>, reference: Option<nat>, refund: bool, category: Option<nat>,
                             merchant: Option<nat>, details: nat, estimated: Option<nat>, billed: Option<nat>,
                             rate: Option<Rate>, txn: Option<Id>, source: Option<Source>, userModified: bool,
                             revision: nat)

  datatype Kind = Spend | Transfer | OtherKind

  /** `statement`: the row came from a statement. */
  datatype Txn = Txn(amount: nat, active: bool, kind: Kind, card: Option<Id>, occurred: int, category: Option<nat>,
                     merchant: Option<nat>, statement: bool)

  datatype Event = Event(payment: Id, before: Option<Payment>, after: Payment)

  datatype Store = Store(payments: map<Id, Payment>, txns: map<Id, Txn>, keys: map<nat, Id>, events: seq<Event>)

  /** What a column of rupee amounts can hold. */
  predicate RupeeAmount(paise: nat) { 0 < paise <= MAX_INR_MINOR }

  const SEVEN_DAYS := 7 * 86_400_000

  predicate Near(a: int, b: int) { -SEVEN_DAYS <= a - b <= SEVEN_DAYS }

  function KindOf(refund: bool): Kind { if refund then Transfer else Spend }

  // ---- valuation ------------------------------------------------------------------------------------------------

  function Valued(p: Payment, status: Status, estimated: Option<nat>, rate: Option<Rate>): Payment {
    p.(status := status, estimated := estimated, rate := rate)
  }

  /** `valuationFor`, applied. */
  function ValuationFor(p: Payment, rate: Option<Rate>): Payment {
    if p.currency.None? || p.amount.None? then Valued(p, AwaitingAmount, None, None)
    else if rate.None? then Valued(p, AwaitingRate, None, None)
    else
      var estimated := Convert(p.amount.value, rate.value.value);
      if estimated.Some? then Valued(p, Estimated, estimated, rate) else Valued(p, AwaitingRate, None, None)
  }

  // ---- writes ---------------------------------------------------------------------------------------------------

  /** `updatePayment`: one more revision and one event. */
  function Update(s: Store, id: Id, next: Payment): Store
    requires id in s.payments
  {
    var before := s.payments[id];
    var after := next.(revision := before.revision + 1);
    s.(payments := s.payments[id := after], events := s.events + [Event(id, Some(before), after)])
  }

  /** A store, and the payment an operation ended on. */
  datatype Done = Done(store: Store, payment: Id)

  function StoreOf(r: Option<Done>): Option<Store> { if r.None? then None else Some(r.value.store) }

  predicate LinkedElsewhere(s: Store, id: Id, txn: Id) {
    exists j :: j in s.payments && j != id && s.payments[j].txn == Some(txn)
  }

  function LinkedTo(s: Store, txn: Id): set<Id> {
    set j | j in s.payments && s.payments[j].txn == Some(txn)
  }

  /** The payment already linked to the transaction. */
  ghost function Holder(s: Store, id: Id, txn: Id): (j: Id)
    requires LinkedElsewhere(s, id, txn)
    ensures j in s.payments && j != id && s.payments[j].txn == Some(txn)
  {
    var j :| j in s.payments && j != id && s.payments[j].txn == Some(txn);
    j
  }

  /** `attachTransaction`, of a transaction that `amount` is said of; the source key of a second
      observation goes to the payment already linked. */
  ghost function Attach(s: Store, id: Id, txn: Id, amount: nat, source: Source, userModified: bool): Option<Done>
    requires id in s.payments && txn in s.txns
  {
    var p := s.payments[id];
    if p.txn.Some? then (if p.txn != Some(txn) || p.billed != Some(amount) then None else Some(Done(s, id)))
    else if LinkedElsewhere(s, id, txn) then
      var j := Holder(s, id, txn);
      Some(Done(Update(s.(keys := s.keys[p.key := j]), id, p.(status := Ignored)), j))
    else if !RupeeAmount(amount) then None
    else
      Some(Done(Update(s, id, p.(status := Confirmed, billed := Some(amount), txn := Some(txn), source := Some(source),
                                 userModified := p.userModified || userModified)), id))
  }

  /** The transactions that carry one of the payment's source keys, and those that carry its bank
      reference, as far as their last four digits do not contradict it. */
  datatype Evidence = Evidence(bySource: set<Id>, byReference: set<Id>)

  /** `safeAutomaticMatch`. */
  predicate SafeMatch(p: Payment, id: Id, t: Txn, found: Evidence) {
    && t.active && RupeeAmount(t.amount) && t.kind == KindOf(p.refund)
    && (p.card.Some? && t.card.Some? ==> p.card == t.card)
    && (p.billed.Some? ==> p.billed == Some(t.amount))
    && (|| (id in found.bySource && p.billed.Some?)
        || (id in found.byReference && p.reference.Some? && p.card.Some? && p.card == t.card
            && Near(p.occurred, t.occurred)))
  }

  function Candidates(s: Store, p: Payment, found: Evidence): set<Id> {
    set t | t in found.bySource + found.byReference && t in s.txns && SafeMatch(p, t, s.txns[t], found)
  }

  /** The only candidate. */
  ghost function Only(c: set<Id>): (t: Id)
    requires |c| == 1
    ensures t in c
  {
    var t :| t in c;
    t
  }

  function SourceOf(t: Txn): Source { if t.statement then Statement else Sms }

  /** `reconcilePayment`. */
  ghost function Reconcile(s: Store, id: Id, found: Evidence): Option<Done>
    requires id in s.payments
  {
    var p := s.payments[id];
    var c := Candidates(s, p, found);
    if p.status.Ignored? || p.status.Confirmed? || |c| != 1 then Some(Done(s, id))
    else Attach(s, id, Only(c), s.txns[Only(c)].amount, SourceOf(s.txns[Only(c)]), false)
  }

  // ---- a message or an edit ---------------------------------------------------------------------------------------

  /** A field of a request: left out, or given, perhaps as null. */
  datatype Field<+T> = Absent | Given(value: Option<T>)

  datatype Edit = Edit(currency: Field<nat>, amount: Field<Decimal>, occurred: Option<int>, card: Field<Id>,
                       reference: Field<nat>, category: Field<nat>, merchant: Field<nat>, details: Option<nat>)

  function Taken<T>(f: Field<T>, stored: Option<T>): Option<T> { if f.Given? then f.value else stored }

  function NotNull<T>(f: Field<T>, stored: Option<T>): Option<T>
  {
    if f.Given? && f.value.Some? then f.value else stored
  }

  function Merged(p: Payment, e: Edit): Payment {
    p.(currency := Taken(e.currency, p.currency), amount := Taken(e.amount, p.amount), card := Taken(e.card, p.card),
       occurred := if e.occurred.Some? then e.occurred.value else p.occurred,
       reference := Taken(e.reference, p.reference), category := Taken(e.category, p.category),
       merchant := Taken(e.merchant, p.merchant),
       details := if e.details.Some? then e.details.value else p.details)
  }

  function MergedNotNull(p: Payment, e: Edit): Payment {
    p.(currency := NotNull(e.currency, p.currency), amount := NotNull(e.amount, p.amount),
       card := NotNull(e.card, p.card),
       occurred := if e.occurred.Some? then e.occurred.value else p.occurred,
       reference := NotNull(e.reference, p.reference), category := NotNull(e.category, p.category),
       merchant := NotNull(e.merchant, p.merchant),
       details := if e.details.Some? then e.details.value else p.details)
  }

  /** Comparing texts can call an original changed that has the same value: `respelled`. */
  predicate OriginalsChanged(p: Payment, e: Edit, respelled: bool) {
    || (e.currency.Given? && e.currency.value != p.currency) || (e.amount.Given? && e.amount.value != p.amount)
    || (e.occurred.Some? && e.occurred.value != p.occurred)
    || (respelled && (e.currency.Given? || e.amount.Given? || e.occurred.Some?))
  }

  function Blank(key: nat, refund: bool, billed: Option<nat>): Payment {
    Payment(key, AwaitingAmount, None, None, 0, None, None, refund, None, None, 0, None, billed, None, None, None,
            false, 1)
  }

  /** An upsert before it reconciles: the payment the key leads to, corrected if it still may be, or a new one. */
  function Received(s: Store, key: nat, id: Id, edit: Edit, refund: bool, smsBilled: Option<nat>, rate: Option<Rate>,
                    refused: bool): Option<Done>
  {
    if key in s.keys && s.keys[key] in s.payments then
      var at, p := s.keys[key], s.payments[s.keys[key]];
      var s1 := if !p.userModified && !p.status.Ignored? && !p.status.Confirmed? && smsBilled.Some? && p.billed.None?
                then Update(s, at, p.(billed := smsBilled)) else s;
      var p1 := s1.payments[at];
      if p1.userModified || p1.status.Ignored? || p1.status.Confirmed? || p1.status.Estimated? then Some(Done(s1, at))
      else if refused then None
      else Some(Done(Update(s1, at, ValuationFor(MergedNotNull(p1, edit), rate)), at))
    else if refused || id in s.payments then None
    else
      var p := ValuationFor(Merged(Blank(key, refund, smsBilled), edit), rate);
      Some(Done(s.(payments := s.payments[id := p], keys := s.keys[key := id],
                   events := s.events + [Event(id, None, p)]), id))
  }

  ghost function UpsertOf(s: Store, key: nat, id: Id, edit: Edit, refund: bool, smsBilled: Option<nat>,
                          rate: Option<Rate>, found: Evidence, refused: bool): Option<Done>
  {
    var r := Received(s, key, id, edit, refund, smsBilled, rate, refused);
    if r.None? then None else Reconcile(r.value.store, r.value.payment, found)
  }

  function PatchOf(s: Store, id: Id, edit: Edit, respelled: bool, ignore: bool, expected: Option<nat>,
                   rate: Option<Rate>, refused: bool): Option<Store>
  {
    if refused || id !in s.payments then None
    else
      var p := s.payments[id];
      if (expected.Some? && expected.value != p.revision) || p.status.Confirmed? then None
      else
        var merged := Merged(p, edit).(userModified := true);
        var next := if ignore then merged.(status := Ignored)
                    else if OriginalsChanged(p, edit, respelled) || p.status.Ignored? then ValuationFor(merged, rate)
                    else if p.status.AwaitingRate? && rate.Some? then ValuationFor(merged, rate)
                    else merged;
        Some(Update(s, id, next))
  }

  /** The refresh of a pending payment; without a rate, the request to reconcile it. */
  ghost function RefreshOf(s: Store, id: Id, rate: Option<Rate>, found: Evidence): Option<Store> {
    if id !in s.payments || s.payments[id].status.Confirmed? || s.payments[id].status.Ignored? then Some(s)
    else
      var p := s.payments[id];
      var s1 := if p.status.AwaitingRate? && rate.Some? then Update(s, id, ValuationFor(p, rate)) else s;
      StoreOf(Reconcile(s1, id, found))
  }

  // ---- a confirmation ---------------------------------------------------------------------------------------------

  /** The row the ledger's writer inserts for a payment. */
  function Posted(p: Payment, billed: nat): Txn {
    Txn(billed, true, KindOf(p.refund), p.card, p.occurred, p.category, p.merchant, false)
  }

  /** The transaction a confirmation settles on, and the store with it. `written` is what the ledger's
      writer answers with: a row it inserts, or one it already has. */
  ghost function Settlement(s: Store, p: Payment, billed: nat, txn: Option<Id>, evidence: Source, found: Evidence,
                            written: Id): Option<(Store, Id)>
  {
    var c := Candidates(s, p.(billed := Some(billed)), found);
    if txn.Some? then
      if txn.value !in s.txns then None
      else
        var t := s.txns[txn.value];
        if !t.active || t.amount != billed || t.kind != KindOf(p.refund)
            || (p.card.Some? && t.card.Some? && p.card != t.card)
           || (!evidence.User? && txn.value !in c)
        then None else Some((s, txn.value))
    else if |c| > 1 then None
    else if |c| == 1 then Some((s, Only(c)))
    else if !evidence.User? then None
    else if written in s.txns then
      if !s.txns[written].active || s.txns[written].amount != billed then None else Some((s, written))
    else Some((s.(txns := s.txns[written := Posted(p, billed)]), written))
  }

  /** The store a confirmation attaches in, with the chosen card, and the transaction. */
  ghost function Prepared(s: Store, id: Id, billed: nat, txn: Option<Id>, card: Option<Id>, evidence: Source,
                          found: Evidence, written: Id): Option<(Store, Id)>
    requires id in s.payments
  {
    var p := s.payments[id];
    var chosen := if card.Some? then card else p.card;
    var settled := Settlement(s, p.(card := chosen), billed, txn, evidence, found, written);
    if settled.None? then None
    else
      var (s1, t) := settled.value;
      Some((if chosen != p.card then Update(s1, id, p.(card := chosen, userModified := true)) else s1, t))
  }

  ghost function ConfirmOf(s: Store, id: Id, billed: nat, txn: Option<Id>, card: Option<Id>, evidence: Source,
                           found: Evidence, written: Id, refused: bool): Option<Done>
  {
    if id !in s.payments || !RupeeAmount(billed) then None
    else
      var p := s.payments[id];
      if p.status.Confirmed? then (if p.billed != Some(billed) || (txn.Some? && txn != p.txn) then None
                                   else Some(Done(s, id)))
      else if p.status.Ignored? || refused || (card.Some? && p.card.Some? && card != p.card) then None
      else
        var ready := Prepared(s, id, billed, txn, card, evidence, found, written);
        if ready.None? then None
        else Attach(ready.value.0, id, ready.value.1, ready.value.0.txns[ready.value.1].amount, evidence,
                    evidence.User?)
  }

  // ---- a statement line ---------------------------------------------------------------------------------------------

  /** The originals of a line: left out, null, or a currency and an amount. */
  datatype Original = Unstated | Null | Stated(currency: nat, amount: Decimal)

  /** `billed` is the file's own amount, `key` the line's source key and `claimed` the one it names. */
  datatype Line = Line(billed: nat, kind: Kind, key: Option<nat>, claimed: Option<nat>, original: Original,
                       occurred: int, card: Option<Id>, reference: Option<nat>, merchant: Option<nat>)

  predicate SameOriginal(o: Original, p: Payment) {
    match o
    case Unstated => false
    case Null => p.currency.None? && p.amount.None?
    case Stated(currency, amount) => p.currency == Some(currency) && p.amount.Some? && SameValue(amount, p.amount.value)
  }

  predicate DirectMatch(line: Line, p: Payment) {
    SameOriginal(line.original, p) && line.card.Some? && line.card == p.card && Near(line.occurred, p.occurred)
  }

  /** The payment that the claimed key leads to, when card, originals and time agree. */
  predicate Direct(s: Store, line: Line, id: Id) {
    && line.claimed.Some? && line.claimed.value in s.keys && s.keys[line.claimed.value] == id
    && id in s.payments && DirectMatch(line, s.payments[id])
  }

  /** A pending payment with the line's bank reference and card that the line can settle. */
  predicate ReferenceMatch(line: Line, p: Payment) {
    && !p.status.Confirmed? && !p.status.Ignored?
    && line.reference.Some? && line.card.Some? && p.reference == line.reference && p.card == line.card
    && line.kind == KindOf(p.refund) && (p.billed.Some? ==> p.billed == Some(line.billed))
    && ((line.key == Some(p.key) && p.billed.Some?) || Near(p.occurred, line.occurred))
    && (line.original.Stated? ==> SameOriginal(line.original, p))
  }

  /** The pending payments that the line's evidence finds. */
  function Pending(s: Store, line: Line): set<Id> {
    if line.claimed.Some? && line.claimed.value in s.keys && Direct(s, line, s.keys[line.claimed.value]) then
      {s.keys[line.claimed.value]}
    else
      set id | id in s.payments && ReferenceMatch(line, s.payments[id])
  }

  function LineEdit(line: Line): Edit
    requires line.original.Stated?
  {
    Edit(Given(Some(line.original.currency)), Given(Some(line.original.amount)), Some(line.occurred), Given(line.card),
         Given(line.reference), Absent, Given(line.merchant), None)
  }

  /** Whether the import goes on to the foreign payment: the posted row is active, the file's amount is
      one, and the row is not linked yet. */
  predicate Importable(s: Store, txn: Id, line: Line) {
    txn in s.txns && s.txns[txn].active && RupeeAmount(line.billed) && LinkedTo(s, txn) == {}
  }

  /** `reconcileStatementForeignPayment`, as the import calls it. */
  ghost function StatementOf(s: Store, txn: Id, line: Line, newId: Id, found: Evidence, refused: bool): Option<Store>
  {
    var pending := Pending(s, line);
    if !Importable(s, txn, line) || |pending| > 1 then Some(s)
    else if |pending| == 1 then
      var s1 := if line.key.Some? then s.(keys := s.keys[line.key.value := Only(pending)]) else s;
      StoreOf(Attach(s1, Only(pending), txn, line.billed, Statement, false))
    else if !line.original.Stated? || line.key.None? then Some(s)
    else
      var r := UpsertOf(s, line.key.value, newId, LineEdit(line), line.kind.Transfer?, None, None, found, refused);
      if r.None? then None
      else
        var Done(s1, at) := r.value;
        if at !in s1.payments || txn !in s1.txns || s1.payments[at].status.Ignored? then Some(s1)
        else StoreOf(Attach(s1, at, txn, line.billed, Statement, false))
  }

  // ---- the ledger -------------------------------------------------------------------------------

  /** What the ledger's trigger makes of the payment linked to an updated row. */
  function Synced(p: Payment, row: Txn): Payment {
    p.(status := if row.active then Confirmed else Ignored, billed := Some(row.amount), category := row.category,
       card := row.card, merchant := if row.merchant.Some? then row.merchant else p.merchant, occurred := row.occurred)
  }

  /** An update that lists one of the columns the trigger watches, whether or not it changes it. */
  predicate Fires(before: Txn, row: Txn, listed: bool) {
    || listed || row.active != before.active || row.amount != before.amount || row.category != before.category
    || row.card != before.card || row.merchant != before.merchant || row.occurred != before.occurred
  }

  /** The payment linked to a transaction; there is at most one. */
  ghost function Linked(s: Store, txn: Id): (id: Id)
    requires LinkedTo(s, txn) != {}
    ensures id in LinkedTo(s, txn)
  {
    var id :| id in LinkedTo(s, txn);
    id
  }

  /** A transaction inserted or updated under other operations. */
  ghost function LedgerOf(s: Store, txn: Id, row: Txn, listed: bool): Option<Store> {
    var t := s.(txns := s.txns[txn := row]);
    if !RupeeAmount(row.amount) then None
    else if txn !in s.txns || !Fires(s.txns[txn], row, listed) || LinkedTo(s, txn) == {} then Some(t)
    else Some(Update(t, Linked(s, txn), Synced(s.payments[Linked(s, txn)], row)))
  }

  /** A transaction deleted. */
  ghost function DeleteOf(s: Store, txn: Id): Store {
    if txn !in s.txns then s
    else if LinkedTo(s, txn) == {} then s.(txns := s.txns - {txn})
    else
      var id := Linked(s, txn);
      Update(s.(txns := s.txns - {txn}), id, s.payments[id].(txn := None, status := Ignored))
  }

  // ---- operations -------------------------------------------------------------------------------

  /** `refused` stands for input and ownership checks that fail. */
  datatype Op =
    | Upsert(key: nat, id: Id, edit: Edit, refund: bool, smsBilled: Option<nat>, rate: Option<Rate>, found: Evidence,
             refused: bool)
    | Patch(id: Id, edit: Edit, respelled: bool, ignore: bool, expected: Option<nat>, rate: Option<Rate>, refused: bool)
    | Refresh(id: Id, rate: Option<Rate>, found: Evidence)
    | Confirm(id: Id, billed: nat, chosen: Option<Id>, card: Option<Id>, evidence: Source, found: Evidence, written: Id,
              refused: bool)
    | StatementLine(txn: Id, line: Line, id: Id, found: Evidence, refused: bool)
    | Ledger(txn: Id, row: Txn, listed: bool)
    | Delete(txn: Id)

  ghost function Outcome(s: Store, op: Op): Option<Store> {
    match op
    case Upsert(key, id, edit, refund, smsBilled, rate, found, refused) =>
      StoreOf(UpsertOf(s, key, id, edit, refund, smsBilled, rate, found, refused))
    case Patch(id, edit, respelled, ignore, expected, rate, refused) =>
      PatchOf(s, id, edit, respelled, ignore, expected, rate, refused)
    case Refresh(id, rate, found) => RefreshOf(s, id, rate, found)
    case Confirm(id, billed, txn, card, evidence, found, written, refused) =>
      StoreOf(ConfirmOf(s, id, billed, txn, card, evidence, found, written, refused))
    case StatementLine(txn, line, newId, found, refused) => StatementOf(s, txn, line, newId, found, refused)
    case Ledger(txn, row, listed) => LedgerOf(s, txn, row, listed)
    case Delete(txn) => Some(DeleteOf(s, txn))
  }

  ghost function Next(s: Store, op: Op): Store {
    var r := Outcome(s, op);
    if r.None? then s else r.value
  }

  ghost function Run(s: Store, ops: seq<Op>): Store
    decreases |ops|
  {
    if ops == [] then s else Run(Next(s, ops[0]), ops[1..])
  }

  function NoPayments(): Store { Store(map[], map[], map[], []) }
}
