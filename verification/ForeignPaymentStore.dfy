/** The payment tables as the operations update them, row by row: each method ends in the store its
    specification gives, or refuses and leaves what was there. */
module ForeignPaymentStore {
  import opened Basics
  import opened ForeignPayments
  import opened ForeignPaymentRuns

  /** A method's answer and the tables it leaves, against the specification. */
  ghost predicate Ends(answer: Option<Id>, spec: Option<Done>, before: Store, after: Store) {
    if spec.Some? then answer == Some(spec.value.payment) && after == spec.value.store
    else answer.None? && after == before
  }

  class PaymentTables {
    var payments: map<Id, Payment>
    var txns: map<Id, Txn>
    var keys: map<nat, Id>
    var events: seq<Event>

    function Contents(): Store
      reads this
    {
      Store(payments, txns, keys, events)
    }

    ghost predicate Valid()
      reads this
    {
      Inv(Contents())
    }

    constructor ()
      ensures Valid() && Contents() == NoPayments()
    {
      payments, txns, keys, events := map[], map[], map[], [];
    }

    /** The rollback of a database transaction. */
    method Restore(before: Store)
      modifies this
      ensures Contents() == before
    {
      payments, txns, keys, events := before.payments, before.txns, before.keys, before.events;
    }

    method UpdatePayment(id: Id, next: Payment)
      requires id in payments
      modifies this`payments, this`events
      ensures Contents() == Update(old(Contents()), id, next)
    {
      var before := payments[id];
      var after := next.(revision := before.revision + 1);
      payments := payments[id := after];
      events := events + [Event(id, Some(before), after)];
    }

    method AttachTransaction(id: Id, txn: Id, amount: nat, source: Source, userModified: bool)
      returns (answer: Option<Id>)
      requires Valid() && id in payments && txn in txns
      modifies this
      ensures Ends(answer, Attach(old(Contents()), id, txn, amount, source, userModified), old(Contents()), Contents())
    {
      var p := payments[id];
      if p.txn.Some? {
        return if p.txn != Some(txn) || p.billed != Some(amount) then None else Some(id);
      }
      var linked := LinkedTo(Contents(), txn) - {id};
      if linked != {} {
        var holder :| holder in linked;
        assert holder == Holder(Contents(), id, txn);
        keys := keys[p.key := holder];
        UpdatePayment(id, p.(status := Ignored));
        return Some(holder);
      }
      assert forall j :: j in payments && j != id && payments[j].txn == Some(txn) ==> j in linked;
      if !RupeeAmount(amount) {
        return None;
      }
      UpdatePayment(id, p.(status := Confirmed, billed := Some(amount), txn := Some(txn), source := Some(source),
                           userModified := p.userModified || userModified));
      return Some(id);
    }

    method ReconcilePayment(id: Id, found: Evidence) returns (answer: Option<Id>)
      requires Valid() && id in payments
      modifies this
      ensures Ends(answer, Reconcile(old(Contents()), id, found), old(Contents()), Contents())
    {
      hide Inv, Attach;
      var p := payments[id];
      if p.status.Ignored? || p.status.Confirmed? {
        return Some(id);
      }
      var c := Candidates(Contents(), p, found);
      if |c| != 1 {
        return Some(id);
      }
      var txn :| txn in c;
      OnlyOne(c, txn);
      answer := AttachTransaction(id, txn, txns[txn].amount, SourceOf(txns[txn]), false);
    }

    /** An upsert before it reconciles. */
    method Receive(key: nat, id: Id, edit: Edit, refund: bool, smsBilled: Option<nat>, rate: Option<Rate>,
                   refused: bool) returns (answer: Option<Id>)
      modifies this
      ensures Ends(answer, Received(old(Contents()), key, id, edit, refund, smsBilled, rate, refused), old(Contents()),
                   Contents())
    {
      var before := Contents();
      hide ValuationFor;
      if key in keys && keys[key] in payments {
        var at := keys[key];
        if !payments[at].userModified && !payments[at].status.Ignored? && !payments[at].status.Confirmed?
            && smsBilled.Some? && payments[at].billed.None? {
          UpdatePayment(at, payments[at].(billed := smsBilled));
        }
        var p := payments[at];
        if p.userModified || p.status.Ignored? || p.status.Confirmed? || p.status.Estimated? {
          return Some(at);
        }
        if refused {
          Restore(before);
          return None;
        }
        UpdatePayment(at, ValuationFor(MergedNotNull(p, edit), rate));
        return Some(at);
      }
      if refused || id in payments {
        return None;
      }
      var p := ValuationFor(Merged(Blank(key, refund, smsBilled), edit), rate);
      payments := payments[id := p];
      keys := keys[key := id];
      events := events + [Event(id, None, p)];
      return Some(id);
    }

    method UpsertForeignPayment(key: nat, id: Id, edit: Edit, refund: bool, smsBilled: Option<nat>, rate: Option<Rate>,
                                found: Evidence, refused: bool) returns (answer: Option<Id>)
      requires Valid()
      modifies this
      ensures Ends(answer, UpsertOf(old(Contents()), key, id, edit, refund, smsBilled, rate, found, refused),
                   old(Contents()), Contents())
      ensures Valid()
    {
      var before := Contents();
      hide Inv, Reconcile, Received;
      answer := Receive(key, id, edit, refund, smsBilled, rate, refused);
      if answer.Some? {
        ReceivedSound(before, key, id, edit, refund, smsBilled, rate, refused);
        answer := ReconcilePayment(answer.value, found);
      }
      if answer.None? {
        Restore(before);
      } else {
        UpsertSound(before, key, id, edit, refund, smsBilled, rate, found, refused);
      }
    }

    method PatchForeignPayment(id: Id, edit: Edit, respelled: bool, ignore: bool, expected: Option<nat>,
                               rate: Option<Rate>, refused: bool)
      returns (ok: bool)
      requires Valid()
      modifies this`payments, this`events
      ensures ok == PatchOf(old(Contents()), id, edit, respelled, ignore, expected, rate, refused).Some?
      ensures Contents() == if ok then PatchOf(old(Contents()), id, edit, respelled, ignore, expected, rate,
                                               refused).value else old(Contents())
      ensures Valid()
    {
      if refused || id !in payments {
        return false;
      }
      var p := payments[id];
      if (expected.Some? && expected.value != p.revision) || p.status.Confirmed? {
        return false;
      }
      var next := Merged(p, edit).(userModified := true);
      if ignore {
        next := next.(status := Ignored);
      } else if OriginalsChanged(p, edit, respelled) || p.status.Ignored? || (p.status.AwaitingRate? && rate.Some?) {
        next := ValuationFor(next, rate);
      }
      var before := Contents();
      UpdatePayment(id, next);
      hide Inv, Sound, PatchOf;
      PatchSound(before, id, edit, respelled, ignore, expected, rate, refused);
      SoundInv(before, Contents(), None);
      return true;
    }

    /** The refresh of one pending payment. */
    method RefreshForeignPayment(id: Id, rate: Option<Rate>, found: Evidence) returns (ok: bool)
      requires Valid()
      modifies this
      ensures ok == RefreshOf(old(Contents()), id, rate, found).Some?
      ensures Contents() == if ok then RefreshOf(old(Contents()), id, rate, found).value else old(Contents())
      ensures Valid()
    {
      if id !in payments || payments[id].status.Confirmed? || payments[id].status.Ignored? {
        return true;
      }
      var before, p := Contents(), payments[id];
      hide Inv, Sound, Reconcile, ValuationFor, Update;
      if p.status.AwaitingRate? && rate.Some? {
        RevaluedKeeps(before, id, rate);
        UpdatePayment(id, ValuationFor(p, rate));
      }
      var answer := ReconcilePayment(id, found);
      if answer.None? {
        Restore(before);
        return false;
      }
      RefreshSound(before, id, rate, found);
      SoundInv(before, Contents(), None);
      return true;
    }

    /** The transaction a confirmation settles on, posted when the user confirms without one. */
    method SettleOn(p: Payment, billed: nat, txn: Option<Id>, evidence: Source, found: Evidence, written: Id)
      returns (answer: Option<Id>)
      modifies this`txns
      ensures var spec := Settlement(old(Contents()), p, billed, txn, evidence, found, written);
        if spec.Some? then answer == Some(spec.value.1) && Contents() == spec.value.0
        else answer.None? && Contents() == old(Contents())
    {
      var c := Candidates(Contents(), p.(billed := Some(billed)), found);
      if txn.Some? {
        if txn.value !in txns {
          return None;
        }
        var t := txns[txn.value];
        if !t.active || t.amount != billed || t.kind != KindOf(p.refund)
            || (p.card.Some? && t.card.Some? && p.card != t.card) {
          return None;
        }
        if !evidence.User? && txn.value !in c {
          return None;
        }
        return txn;
      }
      if |c| > 1 {
        return None;
      }
      if |c| == 1 {
        var only :| only in c;
        OnlyOne(c, only);
        return Some(only);
      }
      if !evidence.User? {
        return None;
      }
      if written !in txns {
        txns := txns[written := Posted(p, billed)];
      } else if !txns[written].active || txns[written].amount != billed {
        return None;
      }
      return Some(written);
    }

    /** A confirmation before it attaches. */
    method Prepare(id: Id, billed: nat, txn: Option<Id>, card: Option<Id>, evidence: Source, found: Evidence,
                   written: Id) returns (answer: Option<Id>)
      requires id in payments
      modifies this
      ensures var spec := Prepared(old(Contents()), id, billed, txn, card, evidence, found, written);
        if spec.Some? then answer == Some(spec.value.1) && Contents() == spec.value.0
        else answer.None? && Contents() == old(Contents())
    {
      hide Settlement;
      var p := payments[id];
      var chosen := if card.Some? then card else p.card;
      answer := SettleOn(p.(card := chosen), billed, txn, evidence, found, written);
      if answer.Some? && chosen != p.card {
        UpdatePayment(id, p.(card := chosen, userModified := true));
      }
    }

    method ConfirmForeignPayment(id: Id, billed: nat, txn: Option<Id>, card: Option<Id>, evidence: Source,
                                 found: Evidence, written: Id, refused: bool)
      returns (answer: Option<Id>)
      requires Valid()
      modifies this
      ensures Ends(answer, ConfirmOf(old(Contents()), id, billed, txn, card, evidence, found, written, refused),
                   old(Contents()), Contents())
      ensures Valid()
    {
      hide Inv, Sound, Prepared, Attach;
      var before := Contents();
      if id !in payments || !RupeeAmount(billed) {
        return None;
      }
      var p := payments[id];
      if p.status.Confirmed? {
        return if p.billed != Some(billed) || (txn.Some? && txn != p.txn) then None else Some(id);
      }
      if p.status.Ignored? || refused || (card.Some? && p.card.Some? && card != p.card) {
        return None;
      }
      answer := Prepare(id, billed, txn, card, evidence, found, written);
      if answer.Some? {
        PreparedSound(before, id, billed, txn, card, evidence, found, written);
        answer := AttachTransaction(id, answer.value, txns[answer.value].amount, evidence, evidence.User?);
      }
      if answer.None? {
        Restore(before);
      } else {
        ConfirmSound(before, id, billed, txn, card, evidence, found, written, refused);
        SoundInv(before, Contents(), None);
      }
    }

    method ReconcileStatementForeignPayment(txn: Id, line: Line, newId: Id, found: Evidence, refused: bool)
      returns (ok: bool)
      requires Valid()
      modifies this
      ensures ok == StatementOf(old(Contents()), txn, line, newId, found, refused).Some?
      ensures Contents() == if ok then StatementOf(old(Contents()), txn, line, newId, found, refused).value
                            else old(Contents())
      ensures Valid()
    {
      hide Inv, Sound, UpsertOf, Attach, Pending, Importable;
      var before := Contents();
      var pending := Pending(before, line);
      var answer: Option<Id> := Some(0);
      if !Importable(before, txn, line) || |pending| > 1 {
        return true;
      }
      InLedger(before, txn, line);
      if |pending| == 1 {
        var at :| at in pending;
        OnlyOne(pending, at);
        PendingKnown(before, line);
        if line.key.Some? {
          keys := keys[line.key.value := at];
          KeyMoved(before, line.key.value, at, None);
        }
        answer := AttachTransaction(at, txn, line.billed, Statement, false);
      } else if !line.original.Stated? || line.key.None? {
        return true;
      } else {
        answer := UpsertForeignPayment(line.key.value, newId, LineEdit(line), line.kind.Transfer?, None, None, found,
                                       refused);
        if answer.Some? && answer.value in payments && txn in txns && !payments[answer.value].status.Ignored? {
          answer := AttachTransaction(answer.value, txn, line.billed, Statement, false);
        }
      }
      if answer.None? {
        Restore(before);
        return false;
      }
      StatementSound(before, txn, line, newId, found, refused);
      SoundInv(before, Contents(), Some((txn, line.billed)));
      return true;
    }

    /** The trigger before a transaction is deleted. */
    method DeleteTransaction(txn: Id)
      requires Valid()
      modifies this
      ensures Contents() == DeleteOf(old(Contents()), txn)
      ensures Valid()
    {
      var before := Contents();
      if txn in txns {
        var todo := LinkedTo(before, txn);
        AtMostOneLinked(before, txn);
        txns := txns - {txn};
        while todo != {}
          invariant todo == {} || (todo == LinkedTo(before, txn) && Contents() == before.(txns := before.txns - {txn}))
          invariant todo == {} ==> Contents() == DeleteOf(before, txn)
        {
          var id :| id in todo;
          assert id == Linked(before, txn);
          UpdatePayment(id, payments[id].(txn := None, status := Ignored));
          todo := todo - {id};
        }
      }
      DeleteKeeps(before, txn);
    }

    /** The trigger after a transaction is updated; an inserted one has none. */
    method WriteTransaction(txn: Id, row: Txn, listed: bool) returns (ok: bool)
      requires Valid()
      modifies this
      ensures ok == LedgerOf(old(Contents()), txn, row, listed).Some?
      ensures Contents() == if ok then LedgerOf(old(Contents()), txn, row, listed).value else old(Contents())
      ensures Valid()
    {
      if !RupeeAmount(row.amount) {
        return false;
      }
      var before := Contents();
      var todo := if txn in txns && Fires(txns[txn], row, listed) then LinkedTo(before, txn) else {};
      AtMostOneLinked(before, txn);
      txns := txns[txn := row];
      while todo != {}
        invariant todo == {} || (todo == LinkedTo(before, txn)
                                 && Contents() == before.(txns := before.txns[txn := row]))
        invariant todo == {} ==> Some(Contents()) == LedgerOf(before, txn, row, listed)
        invariant todo != {} ==> txn in before.txns && Fires(before.txns[txn], row, listed)
      {
        var id :| id in todo;
        assert id == Linked(before, txn);
        UpdatePayment(id, Synced(payments[id], row));
        todo := todo - {id};
      }
      LedgerKeeps(before, txn, row, listed);
      return true;
    }
  }

  lemma RevaluedKeeps(s: Store, id: Id, rate: Option<Rate>)
    requires Inv(s) && id in s.payments && !s.payments[id].status.Confirmed?
    ensures var t := Update(s, id, ValuationFor(s.payments[id], rate)); Inv(t) && id in t.payments
  {
    RevaluedSound(s, id, s.payments[id], rate);
    SoundInv(s, Update(s, id, ValuationFor(s.payments[id], rate)), None);
  }

  lemma AtMostOneLinked(s: Store, txn: Id)
    requires Inv(s)
    ensures forall i, j :: i in LinkedTo(s, txn) && j in LinkedTo(s, txn) ==> i == j
  {
  }

  lemma InLedger(s: Store, txn: Id, line: Line)
    requires Importable(s, txn, line)
    ensures txn in s.txns
  {
  }

  lemma PendingKnown(s: Store, line: Line)
    ensures Pending(s, line) <= s.payments.Keys
  {
  }
}
