/** The record a transaction keeps of every counter row it moved (`transactions.card_state_v2`). */
module CardRecords {
  import opened Basics

  /** Rule, card and transaction ids are UUIDs, whose canonical text order is numeric order. */
  type Id = nat

  datatype Kind = BonusPoints | TotalPoints | BonusCashback | TotalCashback | EligibleSpend | TxnCount

  /** Amounts and counts are in hundredths, so `round2` of a stored figure is the figure. */
  datatype Entry = Entry(id: Id, start: int, end: int, delta: nat, kind: Option<Kind>)

  datatype Record = Record(card: Id, caps: seq<Entry>, milestones: seq<Entry>, fees: seq<Entry>)

  datatype Section = Caps | Milestones | Fees

  /** A counter row's key. */
  datatype Key = Key(card: Id, rule: Id, start: int)

  function EntriesOf(r: Option<Record>, section: Section): seq<Entry> {
    if r.None? then []
    else match section
      case Caps => r.value.caps
      case Milestones => r.value.milestones
      case Fees => r.value.fees
  }

  // ---- sorting by (id, start) ---------------------------------------------------------

  predicate AtMost(a: Entry, b: Entry) {
    a.id < b.id || (a.id == b.id && a.start <= b.start)
  }

  predicate SortedEntries(es: seq<Entry>) {
    forall i, j :: 0 <= i < j < |es| ==> AtMost(es[i], es[j])
  }

  /** Puts `e` before the first entry that does not rank below it. */
  function InsertEntry(e: Entry, es: seq<Entry>): (r: seq<Entry>)
    ensures |r| == |es| + 1
  {
    if es == [] then [e]
    else if AtMost(e, es[0]) then [e] + es
    else [es[0]] + InsertEntry(e, es[1..])
  }

  /** The stable sort of a record section. */
  function SortEntries(es: seq<Entry>): (r: seq<Entry>)
    ensures |r| == |es|
  {
    if es == [] then [] else InsertEntry(es[0], SortEntries(es[1..]))
  }

  function Keep(es: seq<Entry>, keep: Entry -> bool): (r: seq<Entry>)
    ensures forall e :: e in r <==> e in es && keep(e)
  {
    if es == [] then []
    else if keep(es[0]) then [es[0]] + Keep(es[1..], keep)
    else Keep(es[1..], keep)
  }

  lemma {:induction false} InsertMembers(e: Entry, es: seq<Entry>)
    ensures forall x :: x in InsertEntry(e, es) <==> x == e || x in es
  {
    if es != [] && !AtMost(e, es[0]) {
      InsertMembers(e, es[1..]);
    }
  }

  lemma {:induction false} SortMembers(es: seq<Entry>)
    ensures forall x :: x in SortEntries(es) <==> x in es
  {
    if es != [] {
      SortMembers(es[1..]);
      InsertMembers(es[0], SortEntries(es[1..]));
    }
  }

  lemma {:induction false} InsertSorted(e: Entry, es: seq<Entry>)
    requires SortedEntries(es)
    ensures SortedEntries(InsertEntry(e, es))
  {
    if es != [] && !AtMost(e, es[0]) {
      InsertSorted(e, es[1..]);
      InsertMembers(e, es[1..]);
      var rest := InsertEntry(e, es[1..]);
      forall i | 0 <= i < |rest|
        ensures AtMost(es[0], rest[i])
      {
        assert rest[i] in rest;
      }
    }
  }

  lemma {:induction false} SortSorted(es: seq<Entry>)
    ensures SortedEntries(SortEntries(es))
  {
    if es != [] {
      SortSorted(es[1..]);
      InsertSorted(es[0], SortEntries(es[1..]));
    }
  }

  lemma {:induction false} SortFixed(es: seq<Entry>)
    requires SortedEntries(es)
    ensures SortEntries(es) == es
  {
    if es != [] {
      SortFixed(es[1..]);
      if |es| > 1 {
        assert AtMost(es[0], es[1]);
      }
    }
  }

  lemma {:induction false} InsertCommute(e: Entry, f: Entry, es: seq<Entry>)
    requires !AtMost(e, f)
    ensures InsertEntry(f, InsertEntry(e, es)) == InsertEntry(e, InsertEntry(f, es))
  {
    if es != [] && !AtMost(f, es[0]) {
      InsertCommute(e, f, es[1..]);
    }
  }

  lemma {:induction false} SortInsertAppend(e: Entry, es: seq<Entry>, more: seq<Entry>)
    ensures SortEntries(InsertEntry(e, es) + more) == InsertEntry(e, SortEntries(es + more))
  {
    if es == [] || AtMost(e, es[0]) {
      assert (InsertEntry(e, es) + more)[1..] == es + more;
    } else {
      SortInsertAppend(e, es[1..], more);
      InsertCommute(e, es[0], SortEntries(es[1..] + more));
      assert (es + more)[1..] == es[1..] + more;
      assert (InsertEntry(e, es) + more)[1..] == InsertEntry(e, es[1..]) + more;
    }
  }

  /** Sorting a prefix first changes nothing. */
  lemma {:induction false} SortAppend(es: seq<Entry>, more: seq<Entry>)
    ensures SortEntries(SortEntries(es) + more) == SortEntries(es + more)
  {
    if es != [] {
      SortAppend(es[1..], more);
      SortInsertAppend(es[0], SortEntries(es[1..]), more);
      assert (es + more)[1..] == es[1..] + more;
    }
  }

  lemma {:induction false} KeepConcat(es: seq<Entry>, more: seq<Entry>, keep: Entry -> bool)
    ensures Keep(es + more, keep) == Keep(es, keep) + Keep(more, keep)
  {
    if es == [] {
      assert es + more == more;
    } else {
      KeepConcat(es[1..], more, keep);
      assert (es + more)[1..] == es[1..] + more;
    }
  }

  lemma {:induction false} KeepInsert(e: Entry, es: seq<Entry>, keep: Entry -> bool)
    requires SortedEntries(es)
    ensures Keep(InsertEntry(e, es), keep) == if keep(e) then InsertEntry(e, Keep(es, keep)) else Keep(es, keep)
  {
    if es != [] && !AtMost(e, es[0]) {
      KeepInsert(e, es[1..], keep);
    } else {
      assert ([e] + es)[1..] == es;
      var kept := Keep(es, keep);
      if kept != [] {
        assert kept[0] in es;
      }
    }
  }

  /** Filtering commutes with the stable sort. */
  lemma {:induction false} KeepSort(es: seq<Entry>, keep: Entry -> bool)
    ensures Keep(SortEntries(es), keep) == SortEntries(Keep(es, keep))
  {
    if es != [] {
      KeepSort(es[1..], keep);
      SortSorted(es[1..]);
      KeepInsert(es[0], SortEntries(es[1..]), keep);
    }
  }

  lemma {:induction false} KeepAll(es: seq<Entry>, keep: Entry -> bool)
    requires forall e :: e in es ==> keep(e)
    ensures Keep(es, keep) == es
  {
    if es != [] {
      KeepAll(es[1..], keep);
    }
  }

  lemma {:induction false} KeepNone(es: seq<Entry>, keep: Entry -> bool)
    requires forall e :: e in es ==> !keep(e)
    ensures Keep(es, keep) == []
  {
    if es != [] {
      KeepNone(es[1..], keep);
    }
  }

  /** Replacing the superseded entries of a section is idempotent: filtering the sorted result
      and adding the new entries again gives the same section. */
  lemma ReplaceTwice(stored: seq<Entry>, moved: seq<Entry>, keep: Entry -> bool)
    requires forall e :: e in moved ==> !keep(e)
    ensures var once := SortEntries(Keep(stored, keep) + moved);
      SortEntries(Keep(once, keep) + moved) == once
  {
    var kept := Keep(stored, keep);
    KeepSort(kept + moved, keep);
    KeepConcat(kept, moved, keep);
    KeepAll(kept, keep);
    KeepNone(moved, keep);
    assert kept + [] == kept;
    SortAppend(kept, moved);
  }

  lemma {:induction false} KeepSame(es: seq<Entry>, keep: Entry -> bool, same: Entry -> bool)
    requires forall e :: e in es ==> (keep(e) <==> same(e))
    ensures Keep(es, keep) == Keep(es, same)
  {
    if es != [] {
      KeepSame(es[1..], keep, same);
    }
  }

  /** An entry sorts past entries of other keys. */
  lemma {:induction false} SortPast(es: seq<Entry>, e: Entry, more: seq<Entry>)
    requires forall x :: x in es ==> !(x.id == e.id && x.start == e.start)
    ensures SortEntries(es + [e] + more) == InsertEntry(e, SortEntries(es + more))
  {
    if es == [] {
      assert es + [e] + more == [e] + more && es + more == more;
    } else {
      SortPast(es[1..], e, more);
      assert (es + [e] + more)[1..] == es[1..] + [e] + more && (es + more)[1..] == es[1..] + more;
      var rest := SortEntries(es[1..] + more);
      if AtMost(es[0], e) {
        InsertCommute(e, es[0], rest);
      } else {
        InsertCommute(es[0], e, rest);
      }
    }
  }

  lemma SplitStep(e: Entry, es: seq<Entry>, last: (Id, int) -> bool, first: seq<Entry>, moved: seq<Entry>)
    requires forall x :: x in first ==> !last(x.id, x.start)
    requires SortEntries(first + moved) == SortEntries(es)
    ensures last(e.id, e.start) ==> SortEntries(first + ([e] + moved)) == InsertEntry(e, SortEntries(es))
    ensures SortEntries([e] + first + moved) == InsertEntry(e, SortEntries(es))
  {
    if last(e.id, e.start) {
      SortPast(first, e, moved);
      assert first + ([e] + moved) == first + [e] + moved;
    }
    assert ([e] + first + moved)[1..] == first + moved;
  }

  /** Moving the entries of some keys to the end of a section does not change how it sorts. */
  lemma {:induction false} SortSplit(es: seq<Entry>, last: (Id, int) -> bool)
    ensures SortEntries(Keep(es, (e: Entry) => !last(e.id, e.start)) + Keep(es, (e: Entry) => last(e.id, e.start)))
            == SortEntries(es)
  {
    if es != [] {
      SortSplit(es[1..], last);
      hide InsertEntry;
      SplitStep(es[0], es[1..], last, Keep(es[1..], (e: Entry) => !last(e.id, e.start)),
                Keep(es[1..], (e: Entry) => last(e.id, e.start)));
    }
  }

  // ---- records --------------------------------------------------------------------------

  /** `toRecord`: sorted sections, and nothing at all when nothing moved. */
  function ToRecord(card: Id, caps: seq<Entry>, milestones: seq<Entry>, fees: seq<Entry>): Option<Record> {
    if caps == [] && milestones == [] && fees == [] then None
    else Some(Record(card, SortEntries(caps), SortEntries(milestones), SortEntries(fees)))
  }

  /** `canonical`: what two records are compared by. */
  function Canonical(r: Option<Record>): Option<Record> {
    if r.None? then None
    else Some(Record(r.value.card, SortEntries(r.value.caps), SortEntries(r.value.milestones),
                     SortEntries(r.value.fees)))
  }

  lemma SortTwice(es: seq<Entry>)
    ensures SortEntries(SortEntries(es)) == SortEntries(es)
  {
    SortSorted(es);
    SortFixed(SortEntries(es));
  }

  lemma ToRecordCanonical(card: Id, caps: seq<Entry>, milestones: seq<Entry>, fees: seq<Entry>)
    ensures Canonical(ToRecord(card, caps, milestones, fees)) == ToRecord(card, caps, milestones, fees)
  {
    SortTwice(caps);
    SortTwice(milestones);
    SortTwice(fees);
  }

  // ---- sums -----------------------------------------------------------------------------

  function EntrySum(es: seq<Entry>, rule: Id, start: int): nat {
    if es == [] then 0
    else (if es[0].id == rule && es[0].start == start then es[0].delta else 0) + EntrySum(es[1..], rule, start)
  }

  /** What a record says its transaction added to the row at `k`. */
  function RecordSum(r: Option<Record>, section: Section, k: Key): nat {
    if r.Some? && r.value.card == k.card then EntrySum(EntriesOf(r, section), k.rule, k.start) else 0
  }

  lemma {:induction false} EntrySumConcat(a: seq<Entry>, b: seq<Entry>, rule: Id, start: int)
    ensures EntrySum(a + b, rule, start) == EntrySum(a, rule, start) + EntrySum(b, rule, start)
  {
    if a == [] {
      assert a + b == b;
    } else {
      EntrySumConcat(a[1..], b, rule, start);
      assert (a + b)[1..] == a[1..] + b;
    }
  }

  lemma {:induction false} EntrySumInsert(e: Entry, es: seq<Entry>, rule: Id, start: int)
    ensures EntrySum(InsertEntry(e, es), rule, start) == EntrySum([e], rule, start) + EntrySum(es, rule, start)
  {
    assert EntrySum([e], rule, start) == if e.id == rule && e.start == start then e.delta else 0;
    if es == [] || AtMost(e, es[0]) {
      assert ([e] + es)[1..] == es;
    } else {
      EntrySumInsert(e, es[1..], rule, start);
    }
  }

  lemma {:induction false} EntrySumSort(es: seq<Entry>, rule: Id, start: int)
    ensures EntrySum(SortEntries(es), rule, start) == EntrySum(es, rule, start)
  {
    if es != [] {
      EntrySumSort(es[1..], rule, start);
      EntrySumInsert(es[0], SortEntries(es[1..]), rule, start);
    }
  }

  lemma {:induction false} EntrySumKeep(es: seq<Entry>, keep: Entry -> bool, rule: Id, start: int)
    ensures (forall e :: e in es && e.id == rule && e.start == start ==> keep(e))
        ==> EntrySum(Keep(es, keep), rule, start) == EntrySum(es, rule, start)
    ensures (forall e :: e in es && e.id == rule && e.start == start ==> !keep(e))
        ==> EntrySum(Keep(es, keep), rule, start) == 0
  {
    if es != [] {
      EntrySumKeep(es[1..], keep, rule, start);
    }
  }

  lemma {:induction false} EntrySumNone(es: seq<Entry>, rule: Id, start: int)
    requires forall e :: e in es && e.id == rule && e.start == start ==> e.delta == 0
    ensures EntrySum(es, rule, start) == 0
  {
    if es != [] {
      EntrySumNone(es[1..], rule, start);
    }
  }

  lemma {:induction false} EntrySumMember(es: seq<Entry>, e: Entry)
    requires e in es
    ensures EntrySum(es, e.id, e.start) >= e.delta
  {
    if es[0] != e {
      EntrySumMember(es[1..], e);
    }
  }

  lemma CanonicalSum(r: Option<Record>, section: Section, k: Key)
    ensures RecordSum(Canonical(r), section, k) == RecordSum(r, section, k)
  {
    EntrySumSort(EntriesOf(r, section), k.rule, k.start);
  }
}
