/** What every run of payment operations and ledger changes keeps, and when a payment settles, bills
    its transaction's amount, or leaves a state. */
module ForeignPaymentRuns {
  import opened Basics
  import opened Money
  import opened ForeignPayments

  // ---- the invariant ------------------------------------------------------------------------------------------------

  /** Confirmed only with a transaction; estimated exactly at the converted amount. */
  predicate PaymentOk(p: Payment) {
    && (p.status.Confirmed? ==> p.txn.Some?)
    && (p.txn.Some? ==> p.billed.Some? && p.source.Some?)
    && (p.status.Estimated? ==> p.currency.Some? && p.amount.Some? && p.rate.Some? && p.estimated.Some?
                                && p.estimated == Convert(p.amount.value, p.rate.value.value))
  }

  function Changes(events: seq<Event>, id: Id): nat {
    if events == [] then 0 else Changes(events[..|events| - 1], id) + if events[|events| - 1].payment == id then 1
    else 0
  }

  /** Source keys lead to payments, and every payment's own key leads somewhere. */
  ghost predicate Resolves(s: Store) {
    && s.keys.Values <= s.payments.Keys
    && (forall id :: id in s.payments ==> s.payments[id].key in s.keys)
  }

  /** A linked payment's transaction is there, and is active exactly while the payment is confirmed. */
  predicate LinkOk(p: Payment, txns: map<Id, Txn>) {
    p.txn.Some? ==> p.txn.value in txns && (p.status.Confirmed? <==> txns[p.txn.value].active)
  }

  predicate RowOk(p: Payment, txns: map<Id, Txn>, changes: nat) {
    PaymentOk(p) && LinkOk(p, txns) && p.revision == changes
  }

  ghost predicate Inv(s: Store) {
    && Resolves(s)
    && (forall id :: id in s.payments ==> RowOk(s.payments[id], s.txns, Changes(s.events, id)))
    && (forall id :: id !in s.payments ==> Changes(s.events, id) == 0)
    && (forall i, j :: i in s.payments && j in s.payments && i != j && s.payments[i].txn.Some? ==>
        s.payments[i].txn != s.payments[j].txn)
    && (forall x :: x in s.txns ==> RupeeAmount(s.txns[x].amount))
  }

  /** Nothing is lost: payments stay, an edit stays marked, and every change adds a revision. */
  ghost predicate Grows(s: Store, t: Store) {
    && s.payments.Keys <= t.payments.Keys
    && (forall id :: id in s.payments ==>
          var p, q := s.payments[id], t.payments[id];
          (p.userModified ==> q.userModified) && p.revision <= q.revision && (q != p ==> p.revision < q.revision))
    && |s.events| <= |t.events|
  }

  /** A linked payment keeps its link, its billed amount and whether it is confirmed; a confirmed one
      does not change at all. */
  predicate Settled(p: Payment, q: Payment) {
    && (p.txn.Some? ==> q.txn == p.txn && q.billed == p.billed && (q.status.Confirmed? <==> p.status.Confirmed?))
    && (p.status.Confirmed? ==> q == p)
  }

  /** A linked payment bills its transaction's amount, or what a statement line says of it. */
  predicate BillsAmount(p: Payment, txns: map<Id, Txn>, line: Option<(Id, nat)>) {
    p.txn.Some? ==>
      && p.txn.value in txns
      && p.billed == Some(if line.Some? && line.value.0 == p.txn.value then line.value.1 else txns[p.txn.value].amount)
  }

  /** Whether the payment has been linked in `t`. */
  predicate NewLink(s: Store, t: Store, id: Id) {
    id in t.payments && t.payments[id].txn.Some? && !(id in s.payments && s.payments[id].txn.Some?)
  }

  /** What every stage of an operation that does not change the ledger keeps; `line` is a statement
      line's transaction and amount. */
  ghost predicate Sound(s: Store, t: Store, line: Option<(Id, nat)>) {
    && Inv(t) && Grows(s, t)
    && (forall id :: id in s.payments ==> Settled(s.payments[id], t.payments[id]))
    && (forall id :: NewLink(s, t, id) ==> BillsAmount(t.payments[id], t.txns, line))
    && (forall x :: x in s.txns ==> x in t.txns && t.txns[x] == s.txns[x])
  }

  lemma SoundRefl(s: Store, line: Option<(Id, nat)>)
    requires Inv(s)
    ensures Sound(s, s, line)
  {
    hide Inv;
  }

  lemma SoundInv(s: Store, t: Store, line: Option<(Id, nat)>)
    requires Sound(s, t, line)
    ensures Inv(t) && Grows(s, t)
  {
  }

  lemma SoundTransitive(s: Store, t: Store, u: Store, line: Option<(Id, nat)>)
    requires Sound(s, t, line) && Sound(t, u, line)
    ensures Sound(s, u, line)
  {
    hide Inv;
  }

  lemma GrowsRefl(s: Store)
    ensures Grows(s, s)
  {
  }

  lemma GrowsTransitive(s: Store, t: Store, u: Store)
    requires Grows(s, t) && Grows(t, u)
    ensures Grows(s, u)
  {
  }

  // ---- one changed payment ----------------------------------------------------------------------

  lemma ChangesAppend(events: seq<Event>, e: Event, id: Id)
    ensures Changes(events + [e], id) == Changes(events, id) + if e.payment == id then 1 else 0
  {
  }

  lemma UpdateEvents(s: Store, id: Id, next: Payment)
    requires id in s.payments
    ensures forall j :: Changes(Update(s, id, next).events, j) == Changes(s.events, j) + if j == id then 1 else 0
  {
    var t := Update(s, id, next);
    forall j
      ensures Changes(t.events, j) == Changes(s.events, j) + if j == id then 1 else 0
    {
      ChangesAppend(s.events, t.events[|s.events|], j);
    }
  }

  lemma UpdateGrows(s: Store, txns: map<Id, Txn>, id: Id, next: Payment)
    requires id in s.payments && (s.payments[id].userModified ==> next.userModified)
    ensures Grows(s, Update(s.(txns := txns), id, next))
  {
  }

  /** Changing one payment to a sound one, linked to nothing another is linked to, while no other
      payment's transaction changes. */
  lemma UpdateInv(s: Store, txns: map<Id, Txn>, id: Id, next: Payment)
    requires Inv(s) && id in s.payments && PaymentOk(next) && LinkOk(next, txns) && next.key == s.payments[id].key
    requires next.txn.Some? ==> forall j :: j in s.payments && j != id ==> s.payments[j].txn != next.txn
    requires forall j :: j in s.payments && j != id ==> LinkOk(s.payments[j], txns)
    requires forall x :: x in txns ==> RupeeAmount(txns[x].amount)
    ensures Inv(Update(s.(txns := txns), id, next))
  {
    UpdateEvents(s.(txns := txns), id, next);
    hide Changes, LinkOk, RupeeAmount;
    RevisionFree(next, txns, s.payments[id].revision + 1);
  }

  lemma RevisionFree(p: Payment, txns: map<Id, Txn>, n: nat)
    ensures PaymentOk(p.(revision := n)) == PaymentOk(p) && LinkOk(p.(revision := n), txns) == LinkOk(p, txns)
  {
  }

  lemma UpdateSound(s: Store, id: Id, next: Payment, line: Option<(Id, nat)>)
    requires Inv(s) && id in s.payments && !s.payments[id].status.Confirmed? && PaymentOk(next) && LinkOk(next, s.txns)
    requires (s.payments[id].userModified ==> next.userModified) && next.key == s.payments[id].key
    requires Settled(s.payments[id], next) && (s.payments[id].txn.None? ==> BillsAmount(next, s.txns, line))
    requires next.txn.Some? ==> forall j :: j in s.payments && j != id ==> s.payments[j].txn != next.txn
    ensures Sound(s, Update(s, id, next), line)
  {
    UpdateGrows(s, s.txns, id, next);
    assert s.(txns := s.txns) == s;
    AllLinksOk(s);
    hide Inv, Grows, LinkOk, PaymentOk, RupeeAmount;
    UpdateInv(s, s.txns, id, next);
  }

  lemma AllLinksOk(s: Store)
    requires Inv(s)
    ensures forall j :: j in s.payments ==> LinkOk(s.payments[j], s.txns)
    ensures forall x :: x in s.txns ==> RupeeAmount(s.txns[x].amount)
  {
    assert forall j :: j in s.payments ==> RowOk(s.payments[j], s.txns, Changes(s.events, j));
  }

  /** A change that touches neither the link, the billed amount nor whether it is confirmed. */
  lemma UnlinkedUpdate(s: Store, id: Id, next: Payment, line: Option<(Id, nat)>)
    requires Inv(s) && id in s.payments && !s.payments[id].status.Confirmed? && PaymentOk(next)
    requires next.txn == s.payments[id].txn && next.billed == s.payments[id].billed && !next.status.Confirmed?
    requires (s.payments[id].userModified ==> next.userModified) && next.key == s.payments[id].key
    ensures Sound(s, Update(s, id, next), line)
  {
    assert RowOk(s.payments[id], s.txns, Changes(s.events, id));
    UpdateSound(s, id, next, line);
  }

  lemma KeyMoved(s: Store, key: nat, id: Id, line: Option<(Id, nat)>)
    requires Inv(s) && id in s.payments
    ensures Inv(s.(keys := s.keys[key := id])) && Sound(s, s.(keys := s.keys[key := id]), line)
  {
    assert Inv(s.(keys := s.keys[key := id]));
    hide Inv;
  }

  // ---- attaching --------------------------------------------------------------------------------------------------

  /** Attaching keeps the invariant: no transaction is linked twice, and the payment it changes is the
      one it confirms or puts aside. */
  lemma AttachKeeps(s: Store, id: Id, txn: Id, amount: nat, source: Source, userModified: bool,
                    line: Option<(Id, nat)>)
    requires Inv(s) && id in s.payments && txn in s.txns && s.txns[txn].active
    requires Attach(s, id, txn, amount, source, userModified).Some?
    requires amount == if line.Some? && line.value.0 == txn then line.value.1 else s.txns[txn].amount
    ensures var Done(t, j) := Attach(s, id, txn, amount, source, userModified).value;
      Sound(s, t, line) && j in t.payments && t.txns == s.txns
  {
    var p := s.payments[id];
    assert RowOk(p, s.txns, Changes(s.events, id));
    if p.txn.Some? {
      SoundRefl(s, line);
    } else if LinkedElsewhere(s, id, txn) {
      var j := Holder(s, id, txn);
      var s1 := s.(keys := s.keys[p.key := j]);
      KeyMoved(s, p.key, j, line);
      hide Inv, Sound, LinkedElsewhere;
      UnlinkedUpdate(s1, id, p.(status := Ignored), line);
      SoundTransitive(s, s1, Update(s1, id, p.(status := Ignored)), line);
    } else {
      hide Inv, Sound;
      UpdateSound(s, id, p.(status := Confirmed, billed := Some(amount), txn := Some(txn), source := Some(source),
                            userModified := p.userModified || userModified), line);
    }
  }

  /** A payment that attaching links is the one it answers with, confirmed. */
  lemma AttachLinks(s: Store, id: Id, txn: Id, amount: nat, source: Source, userModified: bool, j: Id)
    requires id in s.payments && txn in s.txns && Attach(s, id, txn, amount, source, userModified).Some?
    ensures var Done(t, at) := Attach(s, id, txn, amount, source, userModified).value;
      && t.payments.Keys == s.payments.Keys && t.txns == s.txns
      && (NewLink(s, t, j) ==> j == at == id && t.payments[j].status.Confirmed?)
      && (j in s.payments && j != id ==> t.payments[j] == s.payments[j])
  {
  }

  lemma ReconcileSound(s: Store, id: Id, found: Evidence)
    requires Inv(s) && id in s.payments && Reconcile(s, id, found).Some?
    ensures var Done(t, j) := Reconcile(s, id, found).value;
      Sound(s, t, None) && j in t.payments && t.txns == s.txns
  {
    var p := s.payments[id];
    var c := Candidates(s, p, found);
    if p.status.Ignored? || p.status.Confirmed? || |c| != 1 {
      SoundRefl(s, None);
    } else {
      var t := Only(c);
      assert s.txns[t].active;
      hide Inv, Attach, Sound;
      AttachKeeps(s, id, t, s.txns[t].amount, SourceOf(s.txns[t]), false, None);
    }
  }

  lemma ReconcileLinks(s: Store, id: Id, found: Evidence, j: Id)
    requires id in s.payments && Reconcile(s, id, found).Some?
    ensures var Done(t, at) := Reconcile(s, id, found).value;
      && t.payments.Keys == s.payments.Keys && t.txns == s.txns
      && (NewLink(s, t, j) ==> j == at == id && t.payments[j].status.Confirmed?)
      && (j in s.payments && (j != id || s.payments[j].status.Ignored?) ==> t.payments[j] == s.payments[j])
  {
    var c := Candidates(s, s.payments[id], found);
    if Reconcile(s, id, found) != Some(Done(s, id)) {
      var t := Only(c);
      hide Attach;
      AttachLinks(s, id, t, s.txns[t].amount, SourceOf(s.txns[t]), false, j);
    }
  }

  // ---- messages and edits -----------------------------------------------------------------------------------------

  lemma ValuationOk(p: Payment, rate: Option<Rate>)
    requires p.txn.Some? ==> p.billed.Some? && p.source.Some?
    ensures var q := ValuationFor(p, rate);
      && PaymentOk(q) && !q.status.Confirmed? && !q.status.Ignored? && q.txn == p.txn && q.billed == p.billed
      && q.key == p.key && q.userModified == p.userModified && q.revision == p.revision
  {
  }

  lemma InsertEvents(s: Store, id: Id, key: nat, p: Payment)
    ensures var t := s.(payments := s.payments[id := p], keys := s.keys[key := id],
                        events := s.events + [Event(id, None, p)]);
      forall j :: Changes(t.events, j) == Changes(s.events, j) + if j == id then 1 else 0
  {
    forall j
      ensures Changes(s.events + [Event(id, None, p)], j) == Changes(s.events, j) + if j == id then 1 else 0
    {
      ChangesAppend(s.events, Event(id, None, p), j);
    }
  }

  lemma InsertInv(s: Store, id: Id, key: nat, p: Payment)
    requires Inv(s) && id !in s.payments && PaymentOk(p) && p.txn.None? && p.revision == 1 && p.key == key
    ensures Inv(s.(payments := s.payments[id := p], keys := s.keys[key := id],
                   events := s.events + [Event(id, None, p)]))
  {
    InsertEvents(s, id, key, p);
    assert RowOk(p, s.txns, 1);
    hide Changes, RupeeAmount, PaymentOk, LinkOk, RowOk;
  }

  lemma InsertSound(s: Store, id: Id, key: nat, p: Payment)
    requires Inv(s) && id !in s.payments && PaymentOk(p) && p.txn.None? && p.revision == 1 && p.key == key
    ensures Sound(s, s.(payments := s.payments[id := p], keys := s.keys[key := id],
                        events := s.events + [Event(id, None, p)]), None)
  {
    InsertInv(s, id, key, p);
    hide Inv, BillsAmount;
  }

  lemma RevaluedSound(s: Store, id: Id, p: Payment, rate: Option<Rate>)
    requires Inv(s) && id in s.payments && !s.payments[id].status.Confirmed?
    requires p.txn == s.payments[id].txn && p.billed == s.payments[id].billed && p.source == s.payments[id].source
    requires p.key == s.payments[id].key && (s.payments[id].userModified ==> p.userModified)
    ensures Sound(s, Update(s, id, ValuationFor(p, rate)), None)
  {
    assert RowOk(s.payments[id], s.txns, Changes(s.events, id));
    ValuationOk(p, rate);
    hide Inv, Sound, ValuationFor;
    UnlinkedUpdate(s, id, ValuationFor(p, rate), None);
  }

  lemma ExistingSound(s: Store, at: Id, edit: Edit, smsBilled: Option<nat>, rate: Option<Rate>)
    requires Inv(s) && at in s.payments
    ensures var p := s.payments[at];
      var s1 := if !p.userModified && !p.status.Ignored? && !p.status.Confirmed? && smsBilled.Some? && p.billed.None?
                then Update(s, at, p.(billed := smsBilled)) else s;
      var p1 := s1.payments[at];
      && Sound(s, s1, None)
      && (!(p1.userModified || p1.status.Ignored? || p1.status.Confirmed? || p1.status.Estimated?) ==>
            Sound(s, Update(s1, at, ValuationFor(MergedNotNull(p1, edit), rate)), None))
  {
    var p := s.payments[at];
    assert RowOk(p, s.txns, Changes(s.events, at));
    var bills := !p.userModified && !p.status.Ignored? && !p.status.Confirmed? && smsBilled.Some? && p.billed.None?;
    var s1 := if bills then Update(s, at, p.(billed := smsBilled)) else s;
    hide Inv, Sound;
    if bills {
      UpdateSound(s, at, p.(billed := smsBilled), None);
    } else {
      SoundRefl(s, None);
    }
    var p1 := s1.payments[at];
    hide ValuationFor;
    if !(p1.userModified || p1.status.Ignored? || p1.status.Confirmed? || p1.status.Estimated?) {
      SoundInv(s, s1, None);
      RevaluedSound(s1, at, MergedNotNull(p1, edit), rate);
      SoundTransitive(s, s1, Update(s1, at, ValuationFor(MergedNotNull(p1, edit), rate)), None);
    }
  }

  lemma ReceivedSound(s: Store, key: nat, id: Id, edit: Edit, refund: bool, smsBilled: Option<nat>, rate: Option<Rate>,
                      refused: bool)
    requires Inv(s) && Received(s, key, id, edit, refund, smsBilled, rate, refused).Some?
    ensures var Done(t, at) := Received(s, key, id, edit, refund, smsBilled, rate, refused).value;
      at in t.payments && Sound(s, t, None) && Inv(t) && t.txns == s.txns
  {
    hide Sound, Inv, ValuationFor;
    if key in s.keys && s.keys[key] in s.payments {
      ExistingSound(s, s.keys[key], edit, smsBilled, rate);
    } else {
      ValuationOk(Merged(Blank(key, refund, smsBilled), edit), rate);
      InsertSound(s, id, key, ValuationFor(Merged(Blank(key, refund, smsBilled), edit), rate));
    }
    SoundInv(s, Received(s, key, id, edit, refund, smsBilled, rate, refused).value.store, None);
  }

  /** Receiving links nothing and leaves every other payment, and an ignored one, as it is. */
  lemma ReceivedOthers(s: Store, key: nat, id: Id, edit: Edit, refund: bool, smsBilled: Option<nat>,
                       rate: Option<Rate>, refused: bool, j: Id)
    requires Received(s, key, id, edit, refund, smsBilled, rate, refused).Some?
    ensures var Done(t, at) := Received(s, key, id, edit, refund, smsBilled, rate, refused).value;
      && at in t.payments && t.txns == s.txns && !NewLink(s, t, j)
      && (j in s.payments && (j != at || s.payments[j].status.Ignored?) ==>
            j in t.payments && t.payments[j] == s.payments[j])
  {
    if key in s.keys && s.keys[key] in s.payments {
      ValuationLink(MergedNotNull(s.payments[s.keys[key]], edit), rate);
      hide ValuationFor;
      ValuationLink(MergedNotNull(Update(s, s.keys[key],
                                         s.payments[s.keys[key]].(billed := smsBilled)).payments[s.keys[key]], edit),
                    rate);
    } else {
      ValuationLink(Merged(Blank(key, refund, smsBilled), edit), rate);
      hide ValuationFor;
    }
  }

  lemma ValuationLink(p: Payment, rate: Option<Rate>)
    ensures ValuationFor(p, rate).txn == p.txn
  {
  }

  lemma UpsertSound(s: Store, key: nat, id: Id, edit: Edit, refund: bool, smsBilled: Option<nat>, rate: Option<Rate>,
                    found: Evidence, refused: bool)
    requires Inv(s) && UpsertOf(s, key, id, edit, refund, smsBilled, rate, found, refused).Some?
    ensures var Done(t, at) := UpsertOf(s, key, id, edit, refund, smsBilled, rate, found, refused).value;
      Sound(s, t, None) && Inv(t) && at in t.payments && t.txns == s.txns
  {
    ReceivedSound(s, key, id, edit, refund, smsBilled, rate, refused);
    var Done(t, at) := Received(s, key, id, edit, refund, smsBilled, rate, refused).value;
    hide Sound, Inv, Reconcile, Received;
    ReconcileSound(t, at, found);
    SoundTransitive(s, t, Reconcile(t, at, found).value.store, None);
    SoundInv(s, Reconcile(t, at, found).value.store, None);
  }

  /** A payment that an upsert links is the one it answers with, confirmed; an ignored one stays. */
  lemma UpsertLinks(s: Store, key: nat, id: Id, edit: Edit, refund: bool, smsBilled: Option<nat>, rate: Option<Rate>,
                    found: Evidence, refused: bool, j: Id)
    requires UpsertOf(s, key, id, edit, refund, smsBilled, rate, found, refused).Some?
    ensures var Done(t, at) := UpsertOf(s, key, id, edit, refund, smsBilled, rate, found, refused).value;
      && (NewLink(s, t, j) ==> j == at && t.payments[j].status.Confirmed?)
      && (j in s.payments && s.payments[j].status.Ignored? ==> j in t.payments && t.payments[j] == s.payments[j])
  {
    var Done(t, at) := Received(s, key, id, edit, refund, smsBilled, rate, refused).value;
    ReceivedOthers(s, key, id, edit, refund, smsBilled, rate, refused, j);
    hide Received, Reconcile;
    ReconcileLinks(t, at, found, j);
  }

  lemma PatchSound(s: Store, id: Id, edit: Edit, respelled: bool, ignore: bool, expected: Option<nat>,
                   rate: Option<Rate>, refused: bool)
    requires Inv(s) && PatchOf(s, id, edit, respelled, ignore, expected, rate, refused).Some?
    ensures Sound(s, PatchOf(s, id, edit, respelled, ignore, expected, rate, refused).value, None)
  {
    var p := s.payments[id];
    assert RowOk(p, s.txns, Changes(s.events, id));
    var merged := Merged(p, edit).(userModified := true);
    hide Inv, Sound, ValuationFor;
    RevaluedSound(s, id, merged, rate);
    if ignore {
      UnlinkedUpdate(s, id, merged.(status := Ignored), None);
    } else if !OriginalsChanged(p, edit, respelled) && !p.status.Ignored? {
      MergedUnchanged(p, edit, respelled);
      UnlinkedUpdate(s, id, merged, None);
    }
  }

  /** Without a change of originals an estimate stays one. */
  lemma MergedUnchanged(p: Payment, edit: Edit, respelled: bool)
    requires PaymentOk(p) && !OriginalsChanged(p, edit, respelled)
    ensures PaymentOk(Merged(p, edit).(userModified := true))
  {
  }

  lemma RefreshSound(s: Store, id: Id, rate: Option<Rate>, found: Evidence)
    requires Inv(s) && RefreshOf(s, id, rate, found).Some?
    ensures Sound(s, RefreshOf(s, id, rate, found).value, None)
  {
    SoundRefl(s, None);
    if id in s.payments && !s.payments[id].status.Confirmed? && !s.payments[id].status.Ignored? {
      var p := s.payments[id];
      var s1 := if p.status.AwaitingRate? && rate.Some? then Update(s, id, ValuationFor(p, rate)) else s;
      hide Inv, Sound, ValuationFor, Reconcile;
      RevaluedSound(s, id, p, rate);
      SoundInv(s, s1, None);
      ReconcileSound(s1, id, found);
      SoundTransitive(s, s1, Reconcile(s1, id, found).value.store, None);
    }
  }

  // ---- confirmations ------------------------------------------------------------------------------------------------

  /** The transaction is active and of the billed amount, and the ledger has at most one row more. */
  lemma SettlementFacts(s: Store, p: Payment, billed: nat, txn: Option<Id>, evidence: Source, found: Evidence,
                        written: Id)
    requires Settlement(s, p, billed, txn, evidence, found, written).Some?
    ensures var (s1, t) := Settlement(s, p, billed, txn, evidence, found, written).value;
      && s1 == s.(txns := s1.txns) && t in s1.txns && s1.txns[t].amount == billed && s1.txns[t].active
      && (s1.txns == s.txns || (t !in s.txns && s1.txns == s.txns[t := s1.txns[t]]))
  {
  }

  /** A change of the ledger alone, that no linked payment depends on. */
  lemma RowsInv(s: Store, txns: map<Id, Txn>)
    requires Inv(s) && (forall id :: id in s.payments ==> LinkOk(s.payments[id], txns))
    requires forall x :: x in txns ==> RupeeAmount(txns[x].amount)
    ensures Inv(s.(txns := txns)) && Grows(s, s.(txns := txns))
  {
    hide LinkOk, PaymentOk, Changes, RupeeAmount;
    forall id | id in s.payments
      ensures RowOk(s.payments[id], txns, Changes(s.events, id))
    {
      assert RowOk(s.payments[id], s.txns, Changes(s.events, id));
    }
  }

  /** A row more in the ledger. */
  lemma PostedSound(s: Store, txn: Id, row: Txn, line: Option<(Id, nat)>)
    requires Inv(s) && txn !in s.txns && RupeeAmount(row.amount)
    ensures Inv(s.(txns := s.txns[txn := row])) && Sound(s, s.(txns := s.txns[txn := row]), line)
  {
    AllLinksOk(s);
    assert forall id :: id in s.payments ==> LinkOk(s.payments[id], s.txns[txn := row]);
    hide Inv, LinkOk, RupeeAmount, Grows;
    RowsInv(s, s.txns[txn := row]);
  }

  /** Before the transaction is attached. */
  lemma PreparedSound(s: Store, id: Id, billed: nat, txn: Option<Id>, card: Option<Id>, evidence: Source,
                      found: Evidence, written: Id)
    requires Inv(s) && id in s.payments && !s.payments[id].status.Confirmed? && !s.payments[id].status.Ignored?
    requires RupeeAmount(billed) && Prepared(s, id, billed, txn, card, evidence, found, written).Some?
    ensures var (t, x) := Prepared(s, id, billed, txn, card, evidence, found, written).value;
      id in t.payments && x in t.txns && t.txns[x].active && Inv(t) && Sound(s, t, None)
  {
    var p := s.payments[id];
    var chosen := if card.Some? then card else p.card;
    var (s1, t) := Settlement(s, p.(card := chosen), billed, txn, evidence, found, written).value;
    SettlementFacts(s, p.(card := chosen), billed, txn, evidence, found, written);
    assert RowOk(p, s.txns, Changes(s.events, id));
    CardOk(p, chosen);
    hide Inv, Sound, Settlement, PaymentOk;
    if s1.txns == s.txns {
      SoundRefl(s, None);
    } else {
      PostedSound(s, t, s1.txns[t], None);
    }
    if chosen != p.card {
      UnlinkedUpdate(s1, id, p.(card := chosen, userModified := true), None);
      SoundTransitive(s, s1, Update(s1, id, p.(card := chosen, userModified := true)), None);
    }
    SoundInv(s, Prepared(s, id, billed, txn, card, evidence, found, written).value.0, None);
  }

  lemma CardOk(p: Payment, card: Option<Id>)
    requires PaymentOk(p)
    ensures PaymentOk(p.(card := card, userModified := true))
  {
  }

  lemma ConfirmSound(s: Store, id: Id, billed: nat, txn: Option<Id>, card: Option<Id>, evidence: Source,
                     found: Evidence, written: Id, refused: bool)
    requires Inv(s) && ConfirmOf(s, id, billed, txn, card, evidence, found, written, refused).Some?
    ensures Sound(s, ConfirmOf(s, id, billed, txn, card, evidence, found, written, refused).value.store, None)
  {
    if s.payments[id].status.Confirmed? {
      SoundRefl(s, None);
    } else {
      PreparedSound(s, id, billed, txn, card, evidence, found, written);
      var (t, x) := Prepared(s, id, billed, txn, card, evidence, found, written).value;
      hide Inv, Sound, Prepared, Attach;
      AttachKeeps(t, id, x, t.txns[x].amount, evidence, evidence.User?, None);
      SoundTransitive(s, t, Attach(t, id, x, t.txns[x].amount, evidence, evidence.User?).value.store, None);
    }
  }

  // ---- statement lines ----------------------------------------------------------------------------------------------

  /** Nothing is linked to the line's transaction but what the line links. */
  lemma LineBills(s: Store, t: Store, txn: Id, amount: nat)
    requires Sound(s, t, None)
    requires forall j :: NewLink(s, t, j) && t.payments[j].txn == Some(txn) ==> t.payments[j].billed == Some(amount)
    ensures Sound(s, t, Some((txn, amount)))
  {
    hide Inv, Grows, Settled;
  }

  /** The upsert of a line that finds no pending payment, and the attachment after it. */
  lemma CreatedSound(s: Store, txn: Id, line: Line, newId: Id, found: Evidence, refused: bool)
    requires Inv(s) && Importable(s, txn, line) && |Pending(s, line)| == 0 && line.original.Stated? && line.key.Some?
    requires StatementOf(s, txn, line, newId, found, refused).Some?
    ensures Sound(s, StatementOf(s, txn, line, newId, found, refused).value, Some((txn, line.billed)))
  {
    var key, edit, refund := line.key.value, LineEdit(line), line.kind.Transfer?;
    UpsertSound(s, key, newId, edit, refund, None, None, found, refused);
    var Done(t, at) := UpsertOf(s, key, newId, edit, refund, None, None, found, refused).value;
    forall j
      ensures NewLink(s, t, j) ==> j == at && t.payments[j].status.Confirmed?
    {
      UpsertLinks(s, key, newId, edit, refund, None, None, found, refused, j);
    }
    hide Inv, Sound, UpsertOf;
    if t.payments[at].status.Ignored? {
      LineBills(s, t, txn, line.billed);
    } else {
      if NewLink(s, t, at) {
        assert t.payments[at].txn.Some?;
      }
      LineBills(s, t, txn, line.billed);
      hide Attach;
      AttachKeeps(t, at, txn, line.billed, Statement, false, Some((txn, line.billed)));
      SoundTransitive(s, t, Attach(t, at, txn, line.billed, Statement, false).value.store, Some((txn, line.billed)));
    }
  }

  lemma StatementSound(s: Store, txn: Id, line: Line, newId: Id, found: Evidence, refused: bool)
    requires Inv(s) && StatementOf(s, txn, line, newId, found, refused).Some?
    ensures Sound(s, StatementOf(s, txn, line, newId, found, refused).value, Some((txn, line.billed)))
  {
    var pending, billing := Pending(s, line), Some((txn, line.billed));
    SoundRefl(s, billing);
    if Importable(s, txn, line) && |pending| == 1 {
      var at := Only(pending);
      var s1 := if line.key.Some? then s.(keys := s.keys[line.key.value := at]) else s;
      if line.key.Some? {
        KeyMoved(s, line.key.value, at, billing);
      }
      hide Inv, Sound, Attach, Pending;
      AttachKeeps(s1, at, txn, line.billed, Statement, false, billing);
      SoundTransitive(s, s1, Attach(s1, at, txn, line.billed, Statement, false).value.store, billing);
    } else if Importable(s, txn, line) && |pending| == 0 && line.original.Stated? && line.key.Some? {
      hide Sound, Inv;
      CreatedSound(s, txn, line, newId, found, refused);
    }
  }

  // ---- the ledger -------------------------------------------------------------------------------------------------

  /** What a ledger change may do: only the payment linked to the transaction changes. */
  ghost predicate OnlyLinked(s: Store, t: Store, txn: Id) {
    && t.payments.Keys == s.payments.Keys
    && forall id :: id in s.payments && s.payments[id].txn != Some(txn) ==> t.payments[id] == s.payments[id]
  }

  lemma OthersLinkOk(s: Store, txn: Id, txns: map<Id, Txn>, id: Id)
    requires Inv(s) && forall x :: x != txn && x in s.txns ==> x in txns && txns[x] == s.txns[x]
    requires id in s.payments && s.payments[id].txn != Some(txn)
    ensures LinkOk(s.payments[id], txns)
  {
    assert RowOk(s.payments[id], s.txns, Changes(s.events, id));
  }

  lemma OneLinked(s: Store, txn: Id, id: Id)
    requires Inv(s) && id in LinkedTo(s, txn)
    ensures LinkedTo(s, txn) == {id} && forall j :: j in s.payments && j != id ==> s.payments[j].txn != Some(txn)
  {
  }

  lemma UpdateOnly(s: Store, txns: map<Id, Txn>, txn: Id, id: Id, next: Payment)
    requires LinkedTo(s, txn) == {id}
    ensures var t := Update(s.(txns := txns), id, next);
      && OnlyLinked(s, t, txn) && t.txns == txns
      && forall j :: j in s.payments && s.payments[j].txn == Some(txn) ==>
           j == id && t.payments[j] == next.(revision := s.payments[j].revision + 1)
  {
    assert id in LinkedTo(s, txn);
    forall j | j in s.payments && s.payments[j].txn == Some(txn)
      ensures j == id
    {
      assert j in LinkedTo(s, txn);
    }
  }

  /** The one payment linked to the transaction changes with it. */
  lemma LinkedChange(s: Store, txns: map<Id, Txn>, txn: Id, id: Id, next: Payment)
    requires Inv(s) && id in LinkedTo(s, txn) && PaymentOk(next) && LinkOk(next, txns) && next.key == s.payments[id].key
    requires forall x :: x != txn && x in s.txns ==> x in txns && txns[x] == s.txns[x]
    requires forall x :: x in txns ==> RupeeAmount(txns[x].amount)
    requires (next.txn == Some(txn) || next.txn.None?) && (s.payments[id].userModified ==> next.userModified)
    ensures var t := Update(s.(txns := txns), id, next);
      && Inv(t) && Grows(s, t) && OnlyLinked(s, t, txn) && t.txns == txns
      && forall j :: j in s.payments && s.payments[j].txn == Some(txn) ==>
           j == id && t.payments[j] == next.(revision := s.payments[j].revision + 1)
  {
    OneLinked(s, txn, id);
    UpdateGrows(s, txns, id, next);
    UpdateOnly(s, txns, txn, id, next);
    hide Inv, LinkOk, PaymentOk, RupeeAmount, Grows, Update, OnlyLinked;
    forall j | j in s.payments && j != id
      ensures LinkOk(s.payments[j], txns)
    {
      OthersLinkOk(s, txn, txns, j);
    }
    UpdateInv(s, txns, id, next);
  }

  lemma SyncedOk(s: Store, txn: Id, row: Txn, id: Id)
    requires Inv(s) && id in LinkedTo(s, txn)
    ensures PaymentOk(Synced(s.payments[id], row)) && LinkOk(Synced(s.payments[id], row), s.txns[txn := row])
  {
    assert RowOk(s.payments[id], s.txns, Changes(s.events, id));
  }

  lemma LedgerKeeps(s: Store, txn: Id, row: Txn, listed: bool)
    requires Inv(s) && LedgerOf(s, txn, row, listed).Some?
    ensures var t := LedgerOf(s, txn, row, listed).value;
      && Inv(t) && Grows(s, t) && OnlyLinked(s, t, txn) && t.txns == s.txns[txn := row]
      && (forall id :: id in s.payments && s.payments[id].txn == Some(txn) ==>
            txn in s.txns && t.payments[id]
              == if Fires(s.txns[txn], row, listed) then
                   Synced(s.payments[id], row).(revision := s.payments[id].revision + 1)
                 else s.payments[id])
  {
    LinkedThere(s, txn);
    AllLinksOk(s);
    hide Inv, LinkOk, PaymentOk, Grows, OnlyLinked, Fires, RupeeAmount, Update;
    if txn in s.txns && Fires(s.txns[txn], row, listed) && LinkedTo(s, txn) != {} {
      var id := Linked(s, txn);
      SyncedOk(s, txn, row, id);
      LinkedChange(s, s.txns[txn := row], txn, id, Synced(s.payments[id], row));
    } else {
      QuietRow(s, txn, row, listed);
    }
  }

  lemma LinkedThere(s: Store, txn: Id)
    requires Inv(s)
    ensures forall id :: id in s.payments && s.payments[id].txn == Some(txn) ==> id in LinkedTo(s, txn) && txn in s.txns
  {
    forall id | id in s.payments && s.payments[id].txn == Some(txn)
      ensures txn in s.txns
    {
      assert RowOk(s.payments[id], s.txns, Changes(s.events, id));
    }
  }

  /** An inserted row, a row nothing is linked to, or an update that the trigger does not watch. */
  lemma QuietRow(s: Store, txn: Id, row: Txn, listed: bool)
    requires Inv(s) && RupeeAmount(row.amount)
    requires txn !in s.txns || LinkedTo(s, txn) == {} || !Fires(s.txns[txn], row, listed)
    ensures var t := s.(txns := s.txns[txn := row]); Inv(t) && Grows(s, t) && OnlyLinked(s, t, txn)
  {
    var txns := s.txns[txn := row];
    LinkedThere(s, txn);
    forall id | id in s.payments
      ensures LinkOk(s.payments[id], txns)
    {
      assert RowOk(s.payments[id], s.txns, Changes(s.events, id));
    }
    assert forall x :: x in txns ==> RupeeAmount(txns[x].amount);
    hide Inv;
    RowsInv(s, txns);
  }

  lemma DeleteKeeps(s: Store, txn: Id)
    requires Inv(s)
    ensures var t := DeleteOf(s, txn);
      && Inv(t) && Grows(s, t) && OnlyLinked(s, t, txn) && t.txns == s.txns - {txn}
      && (forall id :: id in s.payments && s.payments[id].txn == Some(txn) ==>
            t.payments[id] == s.payments[id].(txn := None, status := Ignored, revision := s.payments[id].revision + 1))
  {
    var txns := s.txns - {txn};
    LinkedThere(s, txn);
    AllLinksOk(s);
    if txn in s.txns && LinkedTo(s, txn) != {} {
      var id := Linked(s, txn);
      var next := s.payments[id].(txn := None, status := Ignored);
      assert PaymentOk(next) && LinkOk(next, txns);
      hide Inv, LinkOk, PaymentOk, Grows, OnlyLinked, RupeeAmount, Update;
      LinkedChange(s, txns, txn, id, next);
    } else {
      assert forall id :: id in s.payments ==> s.payments[id].txn != Some(txn);
      assert forall id :: id in s.payments ==> LinkOk(s.payments[id], txns);
      hide Inv, LinkOk, Grows, RupeeAmount;
      RowsInv(s, txns);
    }
  }

  // ---- one operation ------------------------------------------------------------------------------------------------

  /** What a statement line says of its transaction. */
  function LineOf(op: Op): Option<(Id, nat)> {
    if op.StatementLine? then Some((op.txn, op.line.billed)) else None
  }

  /** An operation on payments: no linked payment changes its link, its billed amount or whether it is
      confirmed, no confirmed one changes at all, and a new link bills its transaction's amount, or the
      line's. */
  lemma PaymentStepSound(s: Store, op: Op)
    requires Inv(s) && !op.Ledger? && !op.Delete?
    ensures Sound(s, Next(s, op), LineOf(op))
  {
    SoundRefl(s, LineOf(op));
    if Outcome(s, op).Some? {
      hide Inv, Sound;
      match op {
        case Upsert(key, id, edit, refund, smsBilled, rate, found, refused) =>
          UpsertSound(s, key, id, edit, refund, smsBilled, rate, found, refused);
        case Patch(id, edit, respelled, ignore, expected, rate, refused) =>
          PatchSound(s, id, edit, respelled, ignore, expected, rate, refused);
        case Refresh(id, rate, found) => RefreshSound(s, id, rate, found);
        case Confirm(id, billed, txn, card, evidence, found, written, refused) =>
          ConfirmSound(s, id, billed, txn, card, evidence, found, written, refused);
        case StatementLine(txn, line, newId, found, refused) => StatementSound(s, txn, line, newId, found, refused);
      }
    }
  }

  /** Every step keeps the invariant, loses no payment and no edit mark, and adds a revision and an
      event with every change. */
  lemma StepSound(s: Store, op: Op)
    requires Inv(s)
    ensures Inv(Next(s, op)) && Grows(s, Next(s, op))
  {
    GrowsRefl(s);
    hide Inv, Grows, Sound;
    match op {
      case Ledger(txn, row, listed) =>
        if Outcome(s, op).Some? {
          LedgerKeeps(s, txn, row, listed);
        }
      case Delete(txn) => DeleteKeeps(s, txn);
      case _ =>
        PaymentStepSound(s, op);
        SoundInv(s, Next(s, op), LineOf(op));
    }
  }

  /** A change of the transaction that the ledger's triggers follow. */
  predicate Touches(s: Store, op: Op, txn: Id) {
    || (op.Ledger? && op.txn == txn && txn in s.txns && RupeeAmount(op.row.amount)
        && Fires(s.txns[txn], op.row, op.listed))
    || (op.Delete? && op.txn == txn)
  }

  /** A confirmed payment changes exactly when its transaction does, and then as the trigger says. */
  lemma ConfirmedChangesIff(s: Store, op: Op, id: Id)
    requires Inv(s) && id in s.payments && s.payments[id].status.Confirmed?
    ensures s.payments[id].txn.Some? && id in Next(s, op).payments
    ensures var p, q := s.payments[id], Next(s, op).payments[id];
      && (q != p <==> Touches(s, op, p.txn.value))
      && (Touches(s, op, p.txn.value) ==>
            q == (if op.Ledger? then Synced(p, op.row) else p.(txn := None, status := Ignored)).(revision := p.revision
                + 1))
  {
    assert RowOk(s.payments[id], s.txns, Changes(s.events, id));
    LinkedThere(s, s.payments[id].txn.value);
    hide Inv, Fires, Grows;
    if op.Ledger? {
      if Outcome(s, op).Some? {
        LedgerKeeps(s, op.txn, op.row, op.listed);
        hide LedgerOf;
      }
    } else if op.Delete? {
      DeleteKeeps(s, op.txn);
      hide DeleteOf;
    } else {
      hide Next;
      PaymentStepSound(s, op);
    }
  }

  /** A payment can be linked and not confirmed; then only its transaction becoming active confirms it:
      no message, edit, confirmation or statement line does. */
  lemma LinkedConfirmsIff(s: Store, op: Op, id: Id)
    requires Inv(s) && id in s.payments && s.payments[id].txn.Some? && !s.payments[id].status.Confirmed?
    ensures id in Next(s, op).payments
    ensures Next(s, op).payments[id].status.Confirmed?
       <==> op.Ledger? && op.txn == s.payments[id].txn.value && op.row.active && RupeeAmount(op.row.amount)
  {
    var p := s.payments[id];
    assert RowOk(p, s.txns, Changes(s.events, id));
    assert op.Ledger? && op.txn == p.txn.value && op.row.active ==> Fires(s.txns[op.txn], op.row, op.listed);
    hide Inv, Fires, Grows;
    if op.Ledger? {
      if Outcome(s, op).Some? {
        LedgerKeeps(s, op.txn, op.row, op.listed);
        hide LedgerOf;
      }
    } else if op.Delete? {
      DeleteKeeps(s, op.txn);
      hide DeleteOf;
    } else {
      hide Next;
      PaymentStepSound(s, op);
    }
  }

  // ---- runs ---------------------------------------------------------------------------------------------------------

  lemma {:induction false} RunSound(s: Store, ops: seq<Op>)
    requires Inv(s)
    ensures Inv(Run(s, ops)) && Grows(s, Run(s, ops))
    decreases |ops|
  {
    if ops == [] {
      GrowsRefl(s);
    } else {
      hide Inv, Grows, Next;
      StepSound(s, ops[0]);
      RunSound(Next(s, ops[0]), ops[1..]);
      GrowsTransitive(s, Next(s, ops[0]), Run(s, ops));
    }
  }

  lemma EmptyInv()
    ensures Inv(NoPayments())
  {
  }

  /** Over every run, with ledger changes and deletions: a payment is confirmed exactly while it is
      linked to an active transaction; no transaction is linked to two payments; each revision is one
      event; and an estimate is the converted amount. */
  lemma RunFromEmpty(ops: seq<Op>)
    ensures var s := Run(NoPayments(), ops);
      && (forall id :: id in s.payments ==>
            var p := s.payments[id];
            && (p.txn.Some? ==> p.txn.value in s.txns && p.billed.Some? && p.source.Some?)
            && (p.status.Confirmed? <==> p.txn.Some? && s.txns[p.txn.value].active)
            && p.revision == Changes(s.events, id)
            && (p.status.Estimated? ==> p.amount.Some? && p.rate.Some? && p.estimated.Some?
                                        && p.estimated == Convert(p.amount.value, p.rate.value.value)))
      && (forall i, j :: i in s.payments && j in s.payments && i != j && s.payments[i].txn.Some? ==>
            s.payments[i].txn != s.payments[j].txn)
  {
    EmptyInv();
    RunSound(NoPayments(), ops);
    var s := Run(NoPayments(), ops);
    assert forall id :: id in s.payments ==> RowOk(s.payments[id], s.txns, Changes(s.events, id));
  }

  // ---- what is billed -----------------------------------------------------------------------------------------------

  /** The payment bills what its transaction now amounts to. */
  predicate Bills(s: Store, id: Id) {
    id in s.payments && s.payments[id].txn.Some? && BillsAmount(s.payments[id], s.txns, None)
  }

  /** A statement line links to its own transaction only. */
  lemma StatementLinks(s: Store, txn: Id, line: Line, newId: Id, found: Evidence, refused: bool, j: Id)
    requires StatementOf(s, txn, line, newId, found, refused).Some?
    ensures var t := StatementOf(s, txn, line, newId, found, refused).value;
      NewLink(s, t, j) ==> t.payments[j].txn == Some(txn) && txn in s.txns
  {
    var pending := Pending(s, line);
    if Importable(s, txn, line) && |pending| == 1 {
      var at := Only(pending);
      var s1 := if line.key.Some? then s.(keys := s.keys[line.key.value := at]) else s;
      hide Pending, Importable;
      AttachTo(s1, at, txn, line.billed, j);
    } else if Importable(s, txn, line) && |pending| == 0 && line.original.Stated? && line.key.Some? {
      var key, edit, refund := line.key.value, LineEdit(line), line.kind.Transfer?;
      UpsertLinks(s, key, newId, edit, refund, None, None, found, refused, j);
      var Done(t, at) := UpsertOf(s, key, newId, edit, refund, None, None, found, refused).value;
      hide UpsertOf, Pending;
      if at in t.payments && txn in t.txns && !t.payments[at].status.Ignored? {
        AttachTo(t, at, txn, line.billed, j);
      }
    }
  }

  lemma AttachTo(s: Store, id: Id, txn: Id, amount: nat, j: Id)
    requires id in s.payments && txn in s.txns && Attach(s, id, txn, amount, Statement, false).Some?
    ensures var t := Attach(s, id, txn, amount, Statement, false).value.store;
      && t.payments.Keys == s.payments.Keys
      && (NewLink(s, t, j) ==> t.payments[j].txn == Some(txn))
      && (j in s.payments && s.payments[j].txn.Some? ==> t.payments[j].txn == s.payments[j].txn)
      && (s.payments[id].txn.Some? ==> s.payments[id].txn == Some(txn))
  {
  }

  /** A linked payment bills its transaction's current amount from the step that links it, unless that
      is a statement line that says another amount; then from the next change of the transaction on. */
  lemma BillsIff(s: Store, op: Op, id: Id)
    requires Inv(s) && id in Next(s, op).payments && Next(s, op).payments[id].txn.Some?
    ensures NewLink(s, Next(s, op), id) && op.StatementLine? ==> op.txn in s.txns
    ensures Bills(Next(s, op), id)
       <==> if NewLink(s, Next(s, op), id) then op.StatementLine? ==> op.line.billed == s.txns[op.txn].amount
            else Bills(s, id) || (op.Ledger? && Touches(s, op, s.payments[id].txn.value))
  {
    if op.Ledger? {
      if Outcome(s, op).Some? {
        LedgerBills(s, op.txn, op.row, op.listed, id);
      }
    } else if op.Delete? {
      DeleteBills(s, op.txn, id);
    } else {
      PaymentStepSound(s, op);
      if op.StatementLine? && Outcome(s, op).Some? {
        StatementLinks(s, op.txn, op.line, op.id, op.found, op.refused, id);
      }
      LinkedHere(s, id);
      hide Next, Inv, Outcome;
    }
  }

  lemma LinkedHere(s: Store, id: Id)
    requires Inv(s)
    ensures id in s.payments && s.payments[id].txn.Some? ==> s.payments[id].txn.value in s.txns
  {
    assert id in s.payments ==> RowOk(s.payments[id], s.txns, Changes(s.events, id));
  }

  lemma LedgerBills(s: Store, txn: Id, row: Txn, listed: bool, id: Id)
    requires Inv(s) && LedgerOf(s, txn, row, listed).Some? && id in LedgerOf(s, txn, row, listed).value.payments
    requires LedgerOf(s, txn, row, listed).value.payments[id].txn.Some?
    ensures id in s.payments && s.payments[id].txn.Some?
    ensures Bills(LedgerOf(s, txn, row, listed).value, id)
       <==> Bills(s, id) || Touches(s, Ledger(txn, row, listed), s.payments[id].txn.value)
  {
    LinkedHere(s, id);
    LedgerKeeps(s, txn, row, listed);
    assert RupeeAmount(row.amount);
    assert txn in s.txns && !Fires(s.txns[txn], row, listed) ==> row.amount == s.txns[txn].amount;
    hide Inv, LedgerOf, Fires, Grows, RupeeAmount;
  }

  lemma DeleteBills(s: Store, txn: Id, id: Id)
    requires Inv(s) && id in DeleteOf(s, txn).payments && DeleteOf(s, txn).payments[id].txn.Some?
    ensures id in s.payments && s.payments[id].txn.Some? && (Bills(DeleteOf(s, txn), id) <==> Bills(s, id))
  {
    LinkedHere(s, id);
    DeleteKeeps(s, txn);
    hide Inv, DeleteOf;
  }

  ghost predicate AllBill(s: Store) {
    forall id :: id in s.payments && s.payments[id].txn.Some? ==> Bills(s, id)
  }

  /** A line that settles a payment on its transaction and says another amount. */
  ghost predicate Misbills(s: Store, op: Op) {
    && op.StatementLine? && op.txn in s.txns && op.line.billed != s.txns[op.txn].amount
    && LinkedTo(s, op.txn) == {} && LinkedTo(Next(s, op), op.txn) != {}
  }

  ghost predicate AlwaysBill(s: Store, ops: seq<Op>)
    decreases |ops|
  {
    AllBill(s) && (ops == [] || AlwaysBill(Next(s, ops[0]), ops[1..]))
  }

  ghost predicate Honest(s: Store, ops: seq<Op>)
    decreases |ops|
  {
    ops == [] || (!Misbills(s, ops[0]) && Honest(Next(s, ops[0]), ops[1..]))
  }

  lemma StepBillsIff(s: Store, op: Op)
    requires Inv(s) && AllBill(s)
    ensures AllBill(Next(s, op)) <==> !Misbills(s, op)
  {
    var t := Next(s, op);
    forall id | id in t.payments && t.payments[id].txn.Some?
      ensures Bills(t, id) || (Misbills(s, op) && NewLink(s, t, id))
    {
      BillsIff(s, op, id);
      if NewLink(s, t, id) && op.StatementLine? && !Bills(t, id) {
        NewLinkMisbills(s, op, id);
      }
    }
    if Misbills(s, op) {
      var id :| id in LinkedTo(t, op.txn);
      LinkIsNew(s, op, op.txn, id);
      BillsIff(s, op, id);
    }
  }

  lemma LinkIsNew(s: Store, op: Op, txn: Id, id: Id)
    requires Inv(s) && !op.Ledger? && !op.Delete? && LinkedTo(s, txn) == {} && id in LinkedTo(Next(s, op), txn)
    ensures NewLink(s, Next(s, op), id)
  {
    assert id in s.payments && s.payments[id].txn == Some(txn) ==> id in LinkedTo(s, txn);
    PaymentStepSound(s, op);
  }

  lemma NewLinkMisbills(s: Store, op: Op, id: Id)
    requires Inv(s) && op.StatementLine? && NewLink(s, Next(s, op), id) && op.txn in s.txns
    requires op.line.billed != s.txns[op.txn].amount
    ensures Misbills(s, op)
  {
    if Outcome(s, op).Some? {
      StatementLinks(s, op.txn, op.line, op.id, op.found, op.refused, id);
      assert id in LinkedTo(Next(s, op), op.txn);
    }
  }

  /** Over a run, every linked payment always bills what its transaction then amounts to exactly when
      no statement line settles a payment at another amount than its transaction's. */
  lemma {:induction false} RunBillsIff(s: Store, ops: seq<Op>)
    requires Inv(s) && AllBill(s)
    ensures AlwaysBill(s, ops) <==> Honest(s, ops)
    decreases |ops|
  {
    if ops != [] {
      hide Inv, AllBill, Next, Misbills;
      StepBillsIff(s, ops[0]);
      StepSound(s, ops[0]);
      if AllBill(Next(s, ops[0])) {
        RunBillsIff(Next(s, ops[0]), ops[1..]);
      }
    }
  }

  // ---- replays ------------------------------------------------------------------------------------------------------

  /** What a message says of a payment, and its estimate: all but its link, billing and bookkeeping. */
  predicate SameFacts(p: Payment, q: Payment) {
    && p.key == q.key && p.currency == q.currency && p.amount == q.amount && p.occurred == q.occurred
    && p.card == q.card && p.reference == q.reference && p.refund == q.refund && p.category == q.category
    && p.merchant == q.merchant && p.details == q.details && p.estimated == q.estimated && p.rate == q.rate
    && p.userModified == q.userModified
  }

  lemma AttachFacts(s: Store, id: Id, txn: Id, amount: nat, source: Source)
    requires id in s.payments && txn in s.txns && Attach(s, id, txn, amount, source, false).Some?
    ensures var t := Attach(s, id, txn, amount, source, false).value.store;
      && t.payments.Keys == s.payments.Keys && forall j :: j in s.payments ==> SameFacts(s.payments[j], t.payments[j])
  {
  }

  /** A replayed message corrects nothing once the user has edited, dismissed or settled the payment
      or an estimate is frozen: every payment keeps its facts, the record the key leads to included. */
  lemma ReplayKeepsFacts(s: Store, key: nat, id: Id, edit: Edit, refund: bool, smsBilled: Option<nat>,
                         rate: Option<Rate>, found: Evidence, refused: bool)
    requires Inv(s) && key in s.keys && UpsertOf(s, key, id, edit, refund, smsBilled, rate, found, refused).Some?
    ensures s.keys[key] in s.payments
    ensures var p := s.payments[s.keys[key]];
      var t := UpsertOf(s, key, id, edit, refund, smsBilled, rate, found, refused).value.store;
      (p.userModified || p.status.Ignored? || p.status.Confirmed? || p.status.Estimated?) ==>
        t.payments.Keys == s.payments.Keys && forall j :: j in s.payments ==> SameFacts(s.payments[j], t.payments[j])
  {
    assert s.keys[key] in s.payments;
    var at, p := s.keys[key], s.payments[s.keys[key]];
    if p.userModified || p.status.Ignored? || p.status.Confirmed? || p.status.Estimated? {
      var s1 := Received(s, key, id, edit, refund, smsBilled, rate, refused).value.store;
      var c := Candidates(s1, s1.payments[at], found);
      hide Inv, Attach, Candidates;
      if Reconcile(s1, at, found) != Some(Done(s1, at)) {
        AttachFacts(s1, at, Only(c), s1.txns[Only(c)].amount, SourceOf(s1.txns[Only(c)]));
      }
    }
  }

  /** When a second observation of a settled purchase is put aside, its key leads to that purchase,
      and replaying the observation returns the purchase and changes nothing. */
  lemma SuppressedThenReplayed(s: Store, id: Id, txn: Id, amount: nat, source: Source, userModified: bool, newId: Id,
                               edit: Edit, refund: bool, smsBilled: Option<nat>, rate: Option<Rate>, found: Evidence,
                               refused: bool)
    requires Inv(s) && id in s.payments && s.payments[id].txn.None? && LinkedElsewhere(s, id, txn)
    requires txn in s.txns && s.txns[txn].active && Attach(s, id, txn, amount, source, userModified).Some?
    ensures var Done(t, j) := Attach(s, id, txn, amount, source, userModified).value;
      && j in s.payments && s.payments[j].txn == Some(txn) && t.payments[id].status.Ignored?
      && UpsertOf(t, s.payments[id].key, newId, edit, refund, smsBilled, rate, found, refused) == Some(Done(t, j))
  {
    var j := Holder(s, id, txn);
    assert RowOk(s.payments[j], s.txns, Changes(s.events, j));
    hide Inv, Candidates, ValuationFor;
  }

  // ---- leaving `ignored` --------------------------------------------------------------------------------------------

  /** Whether this operation takes the ignored payment `id` out of `ignored`: a restoring edit; a
      statement line that claims its key with its card, originals and time, on a row that nothing is
      linked to; or the row it is linked to becoming active. */
  predicate Restores(s: Store, op: Op, id: Id)
    requires id in s.payments
  {
    || (op.Patch? && op.id == id && !op.ignore && !op.refused
        && (op.expected.Some? ==> op.expected.value == s.payments[id].revision))
    || (op.StatementLine? && Importable(s, op.txn, op.line) && Direct(s, op.line, id) && s.payments[id].txn.None?)
    || (op.Ledger? && s.payments[id].txn == Some(op.txn) && op.row.active && RupeeAmount(op.row.amount))
  }

  lemma ConfirmIgnored(s: Store, at: Id, billed: nat, chosen: Option<Id>, card: Option<Id>, evidence: Source,
                       found: Evidence, written: Id, refused: bool, id: Id)
    requires id in s.payments && s.payments[id].status.Ignored?
    requires ConfirmOf(s, at, billed, chosen, card, evidence, found, written, refused).Some?
    ensures var t := ConfirmOf(s, at, billed, chosen, card, evidence, found, written, refused).value.store;
      id in t.payments && t.payments[id] == s.payments[id]
  {
    if !s.payments[at].status.Confirmed? {
      var p := s.payments[at];
      var c := if card.Some? then card else p.card;
      SettlementFacts(s, p.(card := c), billed, chosen, evidence, found, written);
      var (t, x) := Prepared(s, at, billed, chosen, card, evidence, found, written).value;
      hide Settlement, Attach;
      AttachLinks(t, at, x, t.txns[x].amount, evidence, evidence.User?, id);
    }
  }

  lemma RefreshIgnored(s: Store, at: Id, rate: Option<Rate>, found: Evidence, id: Id)
    requires id in s.payments && s.payments[id].status.Ignored? && RefreshOf(s, at, rate, found).Some?
    ensures var t := RefreshOf(s, at, rate, found).value; id in t.payments && t.payments[id] == s.payments[id]
  {
    if at in s.payments && !s.payments[at].status.Confirmed? && !s.payments[at].status.Ignored? {
      var p := s.payments[at];
      var s1 := if p.status.AwaitingRate? && rate.Some? then Update(s, at, ValuationFor(p, rate)) else s;
      hide Reconcile, ValuationFor;
      ReconcileLinks(s1, at, found, id);
    }
  }

  lemma OnlyOne(c: set<Id>, x: Id)
    requires |c| == 1
    ensures x in c <==> x == Only(c)
  {
    assert |c - {Only(c)}| == 0;
  }

  /** An ignored payment is found by a line only through its key. */
  lemma PendingIgnored(s: Store, line: Line, id: Id)
    requires id in s.payments && s.payments[id].status.Ignored?
    ensures id in Pending(s, line) <==> Direct(s, line, id)
    ensures Direct(s, line, id) ==> Pending(s, line) == {id}
  {
  }

  /** A line that finds one payment. */
  lemma PendingStep(s: Store, txn: Id, line: Line, newId: Id, found: Evidence, refused: bool, id: Id)
    requires id in s.payments && s.payments[id].status.Ignored? && Importable(s, txn, line)
             && |Pending(s, line)| == 1
    ensures var r := StatementOf(s, txn, line, newId, found, refused);
      if Direct(s, line, id) then
        if s.payments[id].txn.Some? then r.None?
        else r.Some? && id in r.value.payments && r.value.payments[id].status.Confirmed?
      else r.Some? ==> id in r.value.payments && r.value.payments[id] == s.payments[id]
  {
    var at := Only(Pending(s, line));
    var s1 := if line.key.Some? then s.(keys := s.keys[line.key.value := at]) else s;
    PendingIgnored(s, line, id);
    OnlyOne(Pending(s, line), id);
    assert forall j :: j in s.payments && s.payments[j].txn == Some(txn) ==> j in LinkedTo(s, txn);
    hide Pending, Direct;
    if at != id && Attach(s1, at, txn, line.billed, Statement, false).Some? {
      AttachLinks(s1, at, txn, line.billed, Statement, false, id);
    }
  }

  /** A line that creates a payment. */
  lemma CreatedStep(s: Store, txn: Id, line: Line, newId: Id, found: Evidence, refused: bool, id: Id)
    requires id in s.payments && s.payments[id].status.Ignored? && Importable(s, txn, line)
    requires |Pending(s, line)| == 0 && StatementOf(s, txn, line, newId, found, refused).Some?
    ensures var t := StatementOf(s, txn, line, newId, found, refused).value;
      id in t.payments && t.payments[id] == s.payments[id]
  {
    if line.original.Stated? && line.key.Some? {
      var key, edit, refund := line.key.value, LineEdit(line), line.kind.Transfer?;
      UpsertLinks(s, key, newId, edit, refund, None, None, found, refused, id);
      var Done(t, at) := UpsertOf(s, key, newId, edit, refund, None, None, found, refused).value;
      hide UpsertOf, Pending, Attach;
      if at in t.payments && txn in t.txns && !t.payments[at].status.Ignored? {
        AttachLinks(t, at, txn, line.billed, Statement, false, id);
      }
    }
  }

  lemma StatementIgnored(s: Store, txn: Id, line: Line, newId: Id, found: Evidence, refused: bool, id: Id)
    requires id in s.payments && s.payments[id].status.Ignored?
    ensures var r := StatementOf(s, txn, line, newId, found, refused);
      && (r.Some? ==> id in r.value.payments)
      && (r.Some? && !r.value.payments[id].status.Ignored?
          <==> Importable(s, txn, line) && Direct(s, line, id) && s.payments[id].txn.None?)
  {
    PendingIgnored(s, line, id);
    if Importable(s, txn, line) && |Pending(s, line)| == 1 {
      PendingStep(s, txn, line, newId, found, refused, id);
    } else if Importable(s, txn, line) && |Pending(s, line)| == 0 {
      hide StatementOf, Pending, Direct;
      if StatementOf(s, txn, line, newId, found, refused).Some? {
        CreatedStep(s, txn, line, newId, found, refused, id);
      }
    }
  }

  lemma PatchIgnored(s: Store, op: Op, id: Id)
    requires op.Patch? && id in s.payments && s.payments[id].status.Ignored?
    ensures id in Next(s, op).payments
    ensures !Next(s, op).payments[id].status.Ignored? <==> Restores(s, op, id)
  {
    hide Merged, OriginalsChanged;
  }

  lemma LedgerIgnored(s: Store, op: Op, id: Id)
    requires Inv(s) && (op.Ledger? || op.Delete?) && id in s.payments && s.payments[id].status.Ignored?
    ensures id in Next(s, op).payments
    ensures !Next(s, op).payments[id].status.Ignored? <==> Restores(s, op, id)
  {
    LinkedHere(s, id);
    if s.payments[id].txn.Some? {
      WasInactive(s, id);
    }
    if op.Delete? {
      DeleteKeeps(s, op.txn);
      hide Inv, DeleteOf, Grows;
    } else if Outcome(s, op).Some? {
      LedgerKeeps(s, op.txn, op.row, op.listed);
      assert op.row.active && s.payments[id].txn == Some(op.txn) ==> Fires(s.txns[op.txn], op.row, op.listed);
      hide Inv, LedgerOf, Fires, Grows;
    }
  }

  lemma WasInactive(s: Store, id: Id)
    requires Inv(s) && id in s.payments && !s.payments[id].status.Confirmed? && s.payments[id].txn.Some?
    ensures s.payments[id].txn.value in s.txns && !s.txns[s.payments[id].txn.value].active
  {
    assert RowOk(s.payments[id], s.txns, Changes(s.events, id));
  }

  lemma MessageIgnored(s: Store, op: Op, id: Id)
    requires (op.Upsert? || op.Refresh? || op.Confirm?) && id in s.payments && s.payments[id].status.Ignored?
    ensures id in Next(s, op).payments && Next(s, op).payments[id] == s.payments[id]
  {
    if Outcome(s, op).Some? {
      hide UpsertOf, RefreshOf, ConfirmOf;
      match op {
        case Upsert(key, newId, edit, refund, smsBilled, rate, found, refused) =>
          UpsertLinks(s, key, newId, edit, refund, smsBilled, rate, found, refused, id);
        case Refresh(at, rate, found) => RefreshIgnored(s, at, rate, found, id);
        case Confirm(at, billed, chosen, card, evidence, found, written, refused) =>
          ConfirmIgnored(s, at, billed, chosen, card, evidence, found, written, refused, id);
      }
    }
  }

  /** An ignored payment leaves that state by a restoring edit, by a statement line that identifies it,
      or with its transaction, and in no other way. */
  lemma IgnoredLeavesIff(s: Store, op: Op, id: Id)
    requires Inv(s) && id in s.payments && s.payments[id].status.Ignored?
    ensures id in Next(s, op).payments
    ensures !Next(s, op).payments[id].status.Ignored? <==> Restores(s, op, id)
  {
    if op.Patch? {
      hide Inv, Next, Restores;
      PatchIgnored(s, op, id);
    } else if op.Ledger? || op.Delete? {
      hide Inv, Next, Restores;
      LedgerIgnored(s, op, id);
    } else if op.StatementLine? {
      hide Inv, StatementOf, Importable, Direct;
      StatementIgnored(s, op.txn, op.line, op.id, op.found, op.refused, id);
    } else {
      hide Inv, Next;
      MessageIgnored(s, op, id);
    }
  }

  // ---- runs that show it --------------------------------------------------------------------------------------------

  /** No transaction carries the payment's keys or its reference. */
  function NoEvidence(): Evidence { Evidence({}, {}) }

  /** Twenty dollars on card 3, observed as payment 7 under key 1. */
  function Purchase(): Op {
    Upsert(1, 7, Edit(Given(Some(840)), Given(Some(Decimal(20, 0))), Some(0), Given(Some(3)), Absent, Absent, Absent,
                      None), false, None, None, NoEvidence(), false)
  }

  function Row(amount: nat, active: bool): Txn { Txn(amount, active, Spend, Some(3), 86_400_000, None, None, true) }

  /** A line that bills 1742 rupees on the next day and claims the payment's key. */
  function ClaimingLine(): Op {
    StatementLine(9, Line(174_200, Spend, Some(2), Some(1), Stated(840, Decimal(20, 0)), 86_400_000, Some(3), None,
                          None),
                  0, NoEvidence(), false)
  }

  function Dismiss(ignore: bool): Op {
    Patch(7, Edit(Absent, Absent, None, Absent, Absent, Absent, Absent, None), false, ignore, None, None, false)
  }

  lemma RunThree(s: Store, a: Op, b: Op, c: Op)
    ensures Run(s, [a, b, c]) == Next(Next(Next(s, a), b), c)
  {
    hide Next;
    assert [a, b, c][1..] == [b, c] && [b, c][1..] == [c] && [c][1..] == [];
    assert Run(Next(Next(s, a), b), [c]) == Next(Next(Next(s, a), b), c);
    assert Run(Next(s, a), [b, c]) == Run(Next(Next(s, a), b), [c]);
  }

  /** The ledger has the row, and the purchase is observed. */
  lemma Observed(amount: nat)
    requires RupeeAmount(amount)
    ensures var s := Next(Next(NoPayments(), Ledger(9, Row(amount, true), false)), Purchase());
      && s.txns == map[9 := Row(amount, true)] && s.payments.Keys == {7} && s.keys == map[1 := 7]
      && s.payments[7].status.AwaitingRate? && s.payments[7].txn.None? && s.payments[7].billed.None?
      && s.payments[7].currency == Some(840) && s.payments[7].amount == Some(Decimal(20, 0))
      && s.payments[7].card == Some(3) && s.payments[7].occurred == 0
  {
    var s1 := Next(NoPayments(), Ledger(9, Row(amount, true), false));
    assert s1 == Store(map[], map[9 := Row(amount, true)], map[], []);
    hide RupeeAmount, SameValue;
    assert forall p :: Candidates(Next(s1, Purchase()), p, NoEvidence()) == {};
  }

  /** What the line does to the purchase while no transaction is linked to it. */
  lemma Claimed(s: Store)
    requires s.payments.Keys == {7} && s.keys == map[1 := 7] && 9 in s.txns && s.txns[9].active
    requires var p := s.payments[7];
      p.txn.None? && p.currency == Some(840) && p.amount == Some(Decimal(20, 0)) && p.card == Some(3) && p.occurred == 0
    ensures var t := Next(s, ClaimingLine());
      && t.txns == s.txns && t.payments.Keys == {7} && t.payments[7].status.Confirmed?
      && t.payments[7].txn == Some(9) && t.payments[7].billed == Some(174_200)
      && t.payments[7].source == Some(Statement) && t.payments[7].currency.Some? && t.payments[7].amount.Some?
  {
    var line := ClaimingLine().line;
    assert LinkedTo(s, 9) == {};
    assert SameValue(Decimal(20, 0), Decimal(20, 0));
    assert Direct(s, line, 7);
    assert Pending(s, line) == {7};
    assert Only({7}) == 7;
  }

  /** From the empty store: the user dismisses the purchase, and a statement line that claims its key
      with its card and originals confirms it without an edit. */
  lemma IgnoredThenConfirmed()
    ensures var s := Run(NoPayments(), [Ledger(9, Row(174_200, true), false), Purchase(), Dismiss(true)]);
      && 7 in s.payments && s.payments[7].status.Ignored? && 7 in Next(s, ClaimingLine()).payments
      && var p := Next(s, ClaimingLine()).payments[7];
         p.status.Confirmed? && p.txn == Some(9) && p.billed == Some(174_200) && p.source == Some(Statement)
  {
    RunThree(NoPayments(), Ledger(9, Row(174_200, true), false), Purchase(), Dismiss(true));
    Observed(174_200);
    var s := Next(Next(NoPayments(), Ledger(9, Row(174_200, true), false)), Purchase());
    hide Run;
    var t := Next(s, Dismiss(true));
    assert t.payments.Keys == {7} && t.txns == s.txns && t.keys == s.keys;
    Claimed(t);
  }

  /** A settled purchase. */
  function Settling(amount: nat): seq<Op> { [Ledger(9, Row(amount, true), false), Purchase(), ClaimingLine()] }

  lemma SettledStore(amount: nat)
    requires RupeeAmount(amount)
    ensures var s := Run(NoPayments(), Settling(amount));
      && s.txns == map[9 := Row(amount, true)] && s.payments.Keys == {7}
      && s.payments[7].status.Confirmed? && s.payments[7].txn == Some(9) && s.payments[7].billed == Some(174_200)
      && s.payments[7].currency.Some? && s.payments[7].amount.Some?
  {
    RunThree(NoPayments(), Ledger(9, Row(amount, true), false), Purchase(), ClaimingLine());
    Observed(amount);
    hide Run, Next;
    Claimed(Next(Next(NoPayments(), Ledger(9, Row(amount, true), false)), Purchase()));
  }

  /** The trigger on the settled purchase. */
  lemma RowChanged(s: Store, row: Txn, listed: bool)
    requires s.payments.Keys == {7} && s.payments[7].txn == Some(9) && 9 in s.txns
    requires RupeeAmount(row.amount) && Fires(s.txns[9], row, listed)
    ensures var t := Next(s, Ledger(9, row, listed));
      && t.payments.Keys == {7} && t.txns == s.txns[9 := row]
      && t.payments[7] == Synced(s.payments[7], row).(revision := s.payments[7].revision + 1)
  {
    hide Fires, RupeeAmount;
    assert LinkedTo(s, 9) == {7};
    assert Linked(s, 9) == 7;
  }

  lemma Restored(s: Store)
    requires s.payments.Keys == {7} && s.payments[7].status.Ignored?
    requires s.payments[7].currency.Some? && s.payments[7].amount.Some?
    ensures var t := Next(s, Dismiss(false));
      t.payments.Keys == {7} && t.payments[7].txn == s.payments[7].txn && t.payments[7].status.AwaitingRate?
  {
  }

  /** A payment that is linked and not confirmed: its transaction is dismissed in the ledger, and the
      user restores the payment. */
  lemma LinkedUnconfirmed()
    ensures var s := Run(NoPayments(), Settling(174_200));
      var t := Next(Next(s, Ledger(9, Row(174_200, false), false)), Dismiss(false));
      7 in t.payments && t.payments[7].txn == Some(9) && t.payments[7].status.AwaitingRate?
  {
    SettledStore(174_200);
    var s := Run(NoPayments(), Settling(174_200));
    assert Fires(s.txns[9], Row(174_200, false), false);
    hide Run, Settling, Next, Fires;
    RowChanged(s, Row(174_200, false), false);
    Restored(Next(s, Ledger(9, Row(174_200, false), false)));
  }

  /** A line that says another amount than the row, which the user has edited, is billed at its own;
      the next change of the row puts that right. */
  lemma MisbilledThenSynced()
    ensures var s := Run(NoPayments(), Settling(180_000));
      && 7 in s.payments && s.payments[7].status.Confirmed? && !Bills(s, 7)
      && Bills(Next(s, Ledger(9, Row(180_000, true), true)), 7)
  {
    SettledStore(180_000);
    var s := Run(NoPayments(), Settling(180_000));
    hide Run, Settling, Next;
    RowChanged(s, Row(180_000, true), true);
  }
}
