/** The merchant directory seeder: parents before children, and a diff applied row by row. */
module Seeder {
  import opened Basics

  type Slug = nat

  /** `details` stands for the other fields of a directory row. */
  datatype Merchant = Merchant(slug: Slug, parent: Option<Slug>, details: nat)

  datatype Row = Row(parent: Option<Slug>, details: nat, active: bool)

  type Table = map<Slug, Row>

  type Parents = map<Slug, Option<Slug>>

  predicate DistinctSlugs(ms: seq<Merchant>) {
    forall i, j :: 0 <= i < j < |ms| ==> ms[i].slug != ms[j].slug
  }

  predicate Listed(ms: seq<Merchant>, slug: Slug) {
    exists i :: 0 <= i < |ms| && ms[i].slug == slug
  }

  predicate ParentsPresent(ms: seq<Merchant>) {
    forall i :: 0 <= i < |ms| && ms[i].parent.Some? ==> Listed(ms, ms[i].parent.value)
  }

  /** The parent of every listed merchant, by slug. */
  function ParentsOf(ms: seq<Merchant>): (r: Parents)
    ensures forall s :: s in r <==> Listed(ms, s)
  {
    if ms == [] then map[]
    else
      var r := ParentsOf(ms[..|ms| - 1])[ms[|ms| - 1].slug := ms[|ms| - 1].parent];
      assert forall s :: Listed(ms, s) <==> Listed(ms[..|ms| - 1], s) || s == ms[|ms| - 1].slug by {
        LastListed(ms);
      }
      r
  }

  lemma LastListed(ms: seq<Merchant>)
    requires ms != []
    ensures forall s :: Listed(ms, s) <==> Listed(ms[..|ms| - 1], s) || s == ms[|ms| - 1].slug
  {
  }

  lemma {:induction false} ParentOf(ms: seq<Merchant>, i: nat)
    requires DistinctSlugs(ms) && i < |ms|
    ensures ms[i].slug in ParentsOf(ms) && ParentsOf(ms)[ms[i].slug] == ms[i].parent
  {
    if i < |ms| - 1 {
      assert ms[..|ms| - 1][i] == ms[i];
      ParentOf(ms[..|ms| - 1], i);
    }
  }

  predicate Closed(tree: Parents) {
    forall s :: s in tree && tree[s].Some? ==> tree[s].value in tree
  }

  lemma PresentClosed(ms: seq<Merchant>)
    requires DistinctSlugs(ms) && ParentsPresent(ms)
    ensures Closed(ParentsOf(ms))
  {
    forall s | s in ParentsOf(ms)
      ensures ParentsOf(ms)[s].Some? ==> ParentsOf(ms)[s].value in ParentsOf(ms)
    {
      var i :| 0 <= i < |ms| && ms[i].slug == s;
      ParentOf(ms, i);
    }
  }

  // ---- ancestry ---------------------------------------------------------------------------------------------

  /** The `n`th ancestor. */
  function Up(tree: Parents, s: Slug, n: nat): Option<Slug> {
    if n == 0 then Some(s)
    else
      var below := Up(tree, s, n - 1);
      if below.None? || below.value !in tree then None else tree[below.value]
  }

  /** No merchant is its own ancestor. */
  ghost predicate Acyclic(tree: Parents) {
    forall s, n :: s in tree && n > 0 ==> Up(tree, s, n) != Some(s)
  }

  /** The line of ancestors of `s` ends. */
  ghost predicate Ends(tree: Parents, s: Slug) {
    exists n: nat :: Up(tree, s, n) == None
  }

  lemma {:induction false} UpFromParent(tree: Parents, s: Slug, n: nat)
    requires s in tree && tree[s].Some?
    ensures Up(tree, tree[s].value, n) == Up(tree, s, n + 1)
  {
    if n > 0 {
      UpFromParent(tree, s, n - 1);
    }
  }

  lemma {:induction false} UpStaysNone(tree: Parents, s: Slug, n: nat, m: nat)
    requires Up(tree, s, n) == None && n <= m
    ensures Up(tree, s, m) == None
  {
    if n < m {
      UpStaysNone(tree, s, n, m - 1);
    }
  }

  lemma {:induction false} UpSum(tree: Parents, s: Slug, n: nat, m: nat)
    requires Up(tree, s, n).Some?
    ensures Up(tree, s, n + m) == Up(tree, Up(tree, s, n).value, m)
  {
    if m > 0 {
      UpSum(tree, s, n, m - 1);
    }
  }

  lemma {:induction false} LoopNeverEnds(tree: Parents, s: Slug, k: nat, n: nat)
    requires k > 0 && Up(tree, s, k) == Some(s)
    ensures Up(tree, s, n).Some?
    decreases n
  {
    if n > k {
      UpSum(tree, s, k, n - k);
      LoopNeverEnds(tree, s, k, n - k);
    } else if Up(tree, s, n).None? {
      UpStaysNone(tree, s, n, k);
    }
  }

  /** Walks one merchant's line of parents, as the parse does; refuses when it meets a slug again. */
  method LineEnds(tree: Parents, s: Slug) returns (ok: bool)
    requires Closed(tree) && s in tree
    ensures ok ==> Ends(tree, s)
    ensures !ok ==> !Acyclic(tree)
  {
    var chain, p := {s}, tree[s];
    ghost var n := 1;
    assert Up(tree, s, 0) == Some(s);
    while p.Some?
      invariant n >= 1 && p == Up(tree, s, n) && chain <= tree.Keys
      invariant p.Some? ==> p.value in tree
      invariant forall q :: q in chain ==> exists i :: 0 <= i < n && Up(tree, s, i) == Some(q)
      decreases |tree.Keys - chain|
    {
      if p.value in chain {
        ghost var i :| 0 <= i < n && Up(tree, s, i) == Some(p.value);
        UpSum(tree, s, i, n - i);
        assert Up(tree, p.value, n - i) == Some(p.value);
        return false;
      }
      assert tree.Keys - (chain + {p.value}) == (tree.Keys - chain) - {p.value};
      forall q | q in chain + {p.value}
        ensures exists i :: 0 <= i < n + 1 && Up(tree, s, i) == Some(q)
      {
        if q == p.value {
          assert Up(tree, s, n) == Some(q);
        }
      }
      chain := chain + {p.value};
      p := tree[p.value];
      n := n + 1;
    }
    return true;
  }

  /** The parse's cycle check accepts exactly the acyclic lists. */
  method CheckAcyclic(ms: seq<Merchant>) returns (ok: bool)
    requires DistinctSlugs(ms) && ParentsPresent(ms)
    ensures ok <==> Acyclic(ParentsOf(ms))
    ensures ok ==> forall i :: 0 <= i < |ms| ==> Ends(ParentsOf(ms), ms[i].slug)
  {
    hide Ends, Acyclic, Closed, ParentsOf, ParentsPresent, DistinctSlugs;
    var tree := ParentsOf(ms);
    PresentClosed(ms);
    var i := 0;
    while i < |ms|
      invariant 0 <= i <= |ms|
      invariant forall j :: 0 <= j < i ==> Ends(tree, ms[j].slug)
    {
      ParentOf(ms, i);
      var ends := LineEnds(tree, ms[i].slug);
      if !ends {
        return false;
      }
      i := i + 1;
    }
    AllEndAcyclic(ms, tree);
    return true;
  }

  lemma AllEndAcyclic(ms: seq<Merchant>, tree: Parents)
    requires tree == ParentsOf(ms) && forall i :: 0 <= i < |ms| ==> Ends(tree, ms[i].slug)
    ensures Acyclic(tree)
  {
    forall s, n | s in tree && n > 0
      ensures Up(tree, s, n) != Some(s)
    {
      var i :| 0 <= i < |ms| && ms[i].slug == s;
      var m: nat :| Up(tree, s, m) == None;
      if Up(tree, s, n) == Some(s) {
        LoopNeverEnds(tree, s, n, m);
      }
    }
  }

  // ---- parents first ------------------------------------------------------------------------------------------

  predicate ParentsFirst(out: seq<Merchant>) {
    forall i :: 0 <= i < |out| && out[i].parent.Some? ==> Listed(out[..i], out[i].parent.value)
  }

  predicate Members(out: seq<Merchant>, ms: seq<Merchant>) {
    forall i :: 0 <= i < |out| ==> out[i] in ms
  }

  lemma ListedAppend(out: seq<Merchant>, m: Merchant)
    ensures forall s :: Listed(out + [m], s) <==> Listed(out, s) || s == m.slug
  {
    LastListed(out + [m]);
    assert (out + [m])[..|out|] == out;
  }

  lemma AppendOrdered(out: seq<Merchant>, m: Merchant)
    requires ParentsFirst(out) && DistinctSlugs(out) && !Listed(out, m.slug)
    requires m.parent.Some? ==> Listed(out, m.parent.value)
    ensures ParentsFirst(out + [m]) && DistinctSlugs(out + [m])
  {
    forall i | 0 <= i < |out + [m]| && (out + [m])[i].parent.Some?
      ensures Listed((out + [m])[..i], (out + [m])[i].parent.value)
    {
      assert (out + [m])[..i] == out[..i];
      assert i == |out| ==> out[..i] == out;
    }
    forall i | 0 <= i < |out|
      ensures out[i].slug != m.slug
    {
    }
  }

  function IndexOf(ms: seq<Merchant>, slug: Slug): (i: nat)
    requires Listed(ms, slug)
    ensures i < |ms| && ms[i].slug == slug
  {
    LastListed(ms);
    if ms[|ms| - 1].slug == slug then |ms| - 1 else IndexOf(ms[..|ms| - 1], slug)
  }

  /** What the visits so far have put out. */
  predicate Built(ms: seq<Merchant>, out: seq<Merchant>, done: set<Slug>) {
    && ParentsFirst(out) && DistinctSlugs(out) && Members(out, ms)
    && (forall s :: s in done ==> Listed(out, s)) && forall i :: 0 <= i < |out| ==> out[i].slug in done
  }

  lemma AppendBuilt(ms: seq<Merchant>, out: seq<Merchant>, done: set<Slug>, m: Merchant)
    requires Built(ms, out, done) && m in ms && m.slug !in done && (m.parent.Some? ==> m.parent.value in done)
    ensures Built(ms, out + [m], done + {m.slug})
  {
    ListedAppend(out, m);
    AppendOrdered(out, m);
  }

  ghost predicate Reaches(tree: Parents, s: Slug, q: Slug) {
    exists k: nat :: Up(tree, s, k) == Some(q)
  }

  lemma ReachesSelf(tree: Parents, s: Slug)
    ensures Reaches(tree, s, s)
  {
    assert Up(tree, s, 0) == Some(s);
  }

  lemma ReachesThrough(tree: Parents, s: Slug, q: Slug)
    requires s in tree && tree[s].Some? && Reaches(tree, tree[s].value, q)
    ensures Reaches(tree, s, q) && (q == s ==> !Ends(tree, s))
  {
    var k: nat :| Up(tree, tree[s].value, k) == Some(q);
    UpFromParent(tree, s, k);
    if q == s {
      forall n: nat
        ensures Up(tree, s, n) != None
      {
        LoopNeverEnds(tree, s, k + 1, n);
      }
    }
  }

  lemma ParentEnds(tree: Parents, s: Slug, n: nat)
    requires s in tree && tree[s].Some? && Up(tree, s, n) == None
    ensures n > 0 && Up(tree, tree[s].value, n - 1) == None
  {
    UpFromParent(tree, s, n - 1);
  }

  /** `visit`: a merchant after its line of parents, each once. `n` bounds the line. */
  method Visit(ms: seq<Merchant>, m: Merchant, done: set<Slug>, out: seq<Merchant>,
               ghost n: nat) returns (done2: set<Slug>, out2: seq<Merchant>)
    requires DistinctSlugs(ms) && ParentsPresent(ms) && m in ms && Built(ms, out, done)
    requires Up(ParentsOf(ms), m.slug, n) == None
    ensures Built(ms, out2, done2) && m.slug in done2 && done <= done2
    ensures forall s :: s in done2 && s !in done ==> Reaches(ParentsOf(ms), m.slug, s)
    decreases n
  {
    hide Up, Built, ParentsOf, Reaches, DistinctSlugs;
    done2, out2 := done, out;
    if m.slug in done {
      return;
    }
    ghost var tree := ParentsOf(ms);
    ParentOf(ms, IndexOfMember(ms, m));
    ReachesSelf(tree, m.slug);
    if m.parent.Some? {
      PresentAt(ms, m);
      var parent := ms[IndexOf(ms, m.parent.value)];
      ParentEnds(tree, m.slug, n);
      done2, out2 := Visit(ms, parent, done, out, n - 1);
      forall s | s in done2 && s !in done
        ensures Reaches(tree, m.slug, s) && s != m.slug
      {
        ReachesThrough(tree, m.slug, s);
        assert Ends(tree, m.slug);
      }
    }
    AppendBuilt(ms, out2, done2, m);
    done2, out2 := done2 + {m.slug}, out2 + [m];
  }

  lemma PresentAt(ms: seq<Merchant>, m: Merchant)
    requires ParentsPresent(ms) && m in ms && m.parent.Some?
    ensures Listed(ms, m.parent.value)
  {
  }

  ghost function IndexOfMember(ms: seq<Merchant>, m: Merchant): (i: nat)
    requires m in ms
    ensures i < |ms| && ms[i] == m
  {
    var i :| 0 <= i < |ms| && ms[i] == m;
    i
  }

  /** `orderParentsFirst` of an accepted list: it ends, with the same merchants, each after its
      parent. */
  method OrderParentsFirst(ms: seq<Merchant>) returns (out: seq<Merchant>)
    requires DistinctSlugs(ms) && ParentsPresent(ms) && forall i :: 0 <= i < |ms| ==> Ends(ParentsOf(ms), ms[i].slug)
    ensures ParentsFirst(out) && multiset(out) == multiset(ms)
  {
    var done: set<Slug>, i := {}, 0;
    out := [];
    while i < |ms|
      invariant 0 <= i <= |ms|
      invariant Built(ms, out, done)
      invariant forall j :: 0 <= j < i ==> ms[j].slug in done
    {
      assert Ends(ParentsOf(ms), ms[i].slug);
      ghost var n: nat :| Up(ParentsOf(ms), ms[i].slug, n) == None;
      done, out := Visit(ms, ms[i], done, out, n);
      i := i + 1;
    }
    forall m | m in ms
      ensures m in out
    {
      var j := IndexOfMember(ms, m);
      var k := MemberAt(out, ms[j].slug);
      SameSlugSame(ms, out[k], m);
    }
    forall m | m in out
      ensures m in ms
    {
      var j := IndexOfMember(out, m);
    }
    SameMultiset(out, ms);
  }

  lemma SameSlugSame(ms: seq<Merchant>, a: Merchant, b: Merchant)
    requires DistinctSlugs(ms) && a in ms && b in ms && a.slug == b.slug
    ensures a == b
  {
  }

  lemma {:induction false} OnceEach(ms: seq<Merchant>, m: Merchant)
    requires DistinctSlugs(ms)
    ensures multiset(ms)[m] == if m in ms then 1 else 0
  {
    if ms != [] {
      var init, last := ms[..|ms| - 1], ms[|ms| - 1];
      OnceEach(init, m);
      assert ms == init + [last];
      forall i | 0 <= i < |init|
        ensures init[i] != last
      {
        assert init[i] == ms[i];
      }
    }
  }

  lemma SameMultiset(a: seq<Merchant>, b: seq<Merchant>)
    requires DistinctSlugs(a) && DistinctSlugs(b) && forall m :: m in a <==> m in b
    ensures multiset(a) == multiset(b)
  {
    forall m
      ensures multiset(a)[m] == multiset(b)[m]
    {
      OnceEach(a, m);
      OnceEach(b, m);
    }
  }

  // ---- the diff and its upserts -----------------------------------------------------------------------------

  function RowOf(m: Merchant): Row { Row(m.parent, m.details, true) }

  predicate Differs(table: Table, m: Merchant) {
    m.slug in table && table[m.slug] != RowOf(m)
  }

  datatype Diff = Diff(insert: seq<Merchant>, update: seq<Merchant>, same: nat, missing: set<Slug>)

  function Inserts(table: Table, ms: seq<Merchant>): (r: seq<Merchant>)
    ensures forall m :: m in r <==> m in ms && m.slug !in table
  {
    if ms == [] then []
    else Inserts(table, ms[..|ms| - 1]) + if ms[|ms| - 1].slug !in table then [ms[|ms| - 1]] else []
  }

  function Updates(table: Table, ms: seq<Merchant>): (r: seq<Merchant>)
    ensures forall m :: m in r <==> m in ms && Differs(table, m)
  {
    if ms == [] then []
    else Updates(table, ms[..|ms| - 1]) + if Differs(table, ms[|ms| - 1]) then [ms[|ms| - 1]] else []
  }

  function Missing(table: Table, ms: seq<Merchant>): set<Slug> {
    set s | s in table && table[s].active && !Listed(ms, s)
  }

  lemma PrefixRows(table: Table, ms: seq<Merchant>, i: nat)
    requires i < |ms|
    ensures Inserts(table, ms[..i + 1]) == Inserts(table, ms[..i]) + if ms[i].slug !in table then [ms[i]] else []
    ensures Updates(table, ms[..i + 1]) == Updates(table, ms[..i]) + if Differs(table, ms[i]) then [ms[i]] else []
  {
    assert ms[..i + 1][..i] == ms[..i];
  }

  lemma RowEdges(table: Table, ms: seq<Merchant>)
    ensures Inserts(table, ms[..0]) == [] && Updates(table, ms[..0]) == [] && ms[..|ms|] == ms
  {
  }

  /** `diffRows`. */
  method DiffRows(table: Table, ms: seq<Merchant>) returns (d: Diff)
    ensures d.insert == Inserts(table, ms) && d.update == Updates(table, ms) && d.missing == Missing(table, ms)
    ensures d.same + |d.insert| + |d.update| == |ms|
  {
    hide Listed, Missing, Inserts, Updates;
    RowEdges(table, ms);
    var insert, update, same, i := [], [], 0, 0;
    while i < |ms|
      invariant 0 <= i <= |ms| && same + |insert| + |update| == i
      invariant insert == Inserts(table, ms[..i]) && update == Updates(table, ms[..i])
    {
      PrefixRows(table, ms, i);
      var m := ms[i];
      if m.slug !in table {
        insert := insert + [m];
      } else if !table[m.slug].active || table[m.slug].parent != m.parent || table[m.slug].details != m.details {
        update := update + [m];
      } else {
        same := same + 1;
      }
      i := i + 1;
    }
    d := Diff(insert, update, same, Missing(table, ms));
  }

  /** The table after the upserts of `order`, one by one. */
  function Upserted(table: Table, order: seq<Merchant>): Table {
    if order == [] then table else Upserted(table, order[..|order| - 1])[order[|order| - 1].slug :=
        RowOf(order[|order| - 1])]
  }

  /** The self-referencing foreign key. */
  predicate ParentsStored(table: Table) {
    forall s :: s in table && table[s].parent.Some? ==> table[s].parent.value in table
  }

  lemma {:induction false} UpsertedAt(table: Table, order: seq<Merchant>)
    ensures table.Keys <= Upserted(table, order).Keys
    ensures forall m :: m in order ==> m.slug in Upserted(table, order)
    ensures forall s :: s in Upserted(table, order) ==>
              (s in table && Upserted(table, order)[s] == table[s])
              || exists m :: m in order && m.slug == s && Upserted(table, order)[s] == RowOf(m)
    ensures forall s :: s in table && !Listed(order, s) ==> Upserted(table, order)[s] == table[s]
  {
    if order != [] {
      LastListed(order);
      UpsertedAt(table, order[..|order| - 1]);
      assert order == order[..|order| - 1] + [order[|order| - 1]];
    }
  }

  /** Every parent is stored or comes earlier. */
  predicate Ready(table: Table, order: seq<Merchant>) {
    forall i :: 0 <= i < |order| && order[i].parent.Some? ==>
        order[i].parent.value in table || Listed(order[..i], order[i].parent.value)
  }

  lemma ReadyAppend(table: Table, order: seq<Merchant>, m: Merchant)
    requires Ready(table, order) && (m.parent.Some? ==> m.parent.value in table || Listed(order, m.parent.value))
    ensures Ready(table, order + [m])
  {
    var longer := order + [m];
    forall i | 0 <= i < |longer| && longer[i].parent.Some?
      ensures longer[i].parent.value in table || Listed(longer[..i], longer[i].parent.value)
    {
      assert longer[..i] == order[..i];
      assert i == |order| ==> order[..i] == order;
    }
  }

  /** Rows upserted in an order where every parent is stored or comes earlier keep the foreign key
      after each single row. */
  lemma {:induction false} KeyHoldsThroughout(table: Table, order: seq<Merchant>, k: nat)
    requires ParentsStored(table) && k <= |order| && Ready(table, order)
    ensures ParentsStored(Upserted(table, order[..k]))
    decreases k
  {
    if k > 0 {
      KeyHoldsThroughout(table, order, k - 1);
      assert order[..k][..k - 1] == order[..k - 1];
      UpsertedAt(table, order[..k - 1]);
      var m, before := order[k - 1], Upserted(table, order[..k - 1]);
      assert Upserted(table, order[..k]) == before[m.slug := RowOf(m)];
      if m.parent.Some? && m.parent.value !in table {
        var j := MemberAt(order[..k - 1], m.parent.value);
        assert order[..k - 1][j] in order[..k - 1];
      }
    }
  }

  lemma MemberAt(ms: seq<Merchant>, slug: Slug) returns (i: nat)
    requires Listed(ms, slug)
    ensures i < |ms| && ms[i].slug == slug
  {
    i :| 0 <= i < |ms| && ms[i].slug == slug;
  }

  /** In a list with parents first, what is left out of the inserts is stored already. */
  lemma ParentReady(table: Table, ms: seq<Merchant>, i: nat, earlier: seq<Merchant>)
    requires ParentsFirst(ms) && i < |ms| && ms[i].parent.Some?
    requires forall j :: 0 <= j < i && ms[j].slug !in table ==> ms[j] in earlier
    ensures ms[i].parent.value in table || Listed(earlier, ms[i].parent.value)
  {
  }

  lemma PrefixFirst(ms: seq<Merchant>, n: nat)
    requires ParentsFirst(ms) && n <= |ms|
    ensures ParentsFirst(ms[..n])
  {
    forall i | 0 <= i < n && ms[..n][i].parent.Some?
      ensures Listed(ms[..n][..i], ms[..n][i].parent.value)
    {
      assert ms[..n][..i] == ms[..i];
      assert ms[i].parent.Some?;
    }
  }

  lemma {:induction false} InsertsKeepOrder(table: Table, ms: seq<Merchant>)
    requires ParentsFirst(ms)
    ensures Ready(table, Inserts(table, ms))
  {
    if ms != [] {
      hide ParentsFirst, Ready;
      var init, last := ms[..|ms| - 1], ms[|ms| - 1];
      PrefixFirst(ms, |ms| - 1);
      InsertsKeepOrder(table, init);
      if last.slug !in table {
        forall j | 0 <= j < |ms| - 1 && ms[j].slug !in table
          ensures ms[j] in Inserts(table, init)
        {
          assert init[j] == ms[j];
        }
        if last.parent.Some? {
          ParentReady(table, ms, |ms| - 1, Inserts(table, init));
        }
        ReadyAppend(table, Inserts(table, init), last);
      } else {
        assert Inserts(table, init) + [] == Inserts(table, init);
      }
    } else {
      assert Inserts(table, ms) == [];
    }
  }

  lemma InListed(ms: seq<Merchant>, m: Merchant)
    requires m in ms
    ensures Listed(ms, m.slug)
  {
  }

  /** The order `applyPlan` upserts in: inserts, then updates. */
  function ApplyOrder(table: Table, ms: seq<Merchant>): seq<Merchant> { Inserts(table, ms) + Updates(table, ms) }

  lemma {:induction false} UpdatesReady(table: Table, ms: seq<Merchant>, before: seq<Merchant>, ups: seq<Merchant>)
    requires ParentsFirst(ms) && Ready(table, before) && (forall m :: m in ms && m.slug !in table ==> m in before)
    requires forall m :: m in ups ==> m in ms
    ensures Ready(table, before + ups)
    decreases |ups|
  {
    hide ParentsFirst, Ready;
    if ups == [] {
      assert before + ups == before;
    } else {
      var init, last := ups[..|ups| - 1], ups[|ups| - 1];
      assert ups == init + [last];
      UpdatesReady(table, ms, before, init);
      if last.parent.Some? {
        var j := IndexOfMember(ms, last);
        forall k | 0 <= k < j && ms[k].slug !in table
          ensures ms[k] in before + init
        {
        }
        ParentReady(table, ms, j, before + init);
      }
      ReadyAppend(table, before + init, last);
      assert before + ups == (before + init) + [last];
    }
  }

  lemma ApplyOrderReady(table: Table, ms: seq<Merchant>)
    requires ParentsFirst(ms)
    ensures Ready(table, ApplyOrder(table, ms))
  {
    InsertsKeepOrder(table, ms);
    UpdatesReady(table, ms, Inserts(table, ms), Updates(table, ms));
  }

  /** In a directory listed parents first, the foreign key holds after every single upsert. */
  lemma ForeignKeyHolds(table: Table, ms: seq<Merchant>, k: nat)
    requires ParentsStored(table) && ParentsFirst(ms) && k <= |ApplyOrder(table, ms)|
    ensures ParentsStored(Upserted(table, ApplyOrder(table, ms)[..k]))
  {
    ApplyOrderReady(table, ms);
    KeyHoldsThroughout(table, ApplyOrder(table, ms), k);
  }

  function Deactivated(table: Table, slugs: set<Slug>): Table {
    map s | s in table :: if s in slugs then table[s].(active := false) else table[s]
  }

  /** `applyPlan`, the platform side left out. */
  method ApplyPlan(table: Table, d: Diff, deactivateMissing: bool) returns (after: Table)
    ensures after == if deactivateMissing then Deactivated(Upserted(table, d.insert + d.update), d.missing)
    else Upserted(table, d.insert + d.update)
  {
    var order, i := d.insert + d.update, 0;
    after := table;
    while i < |order|
      invariant 0 <= i <= |order| && after == Upserted(table, order[..i])
    {
      after := after[order[i].slug := RowOf(order[i])];
      assert order[..i + 1][..i] == order[..i];
      i := i + 1;
    }
    assert order[..|order|] == order;
    if deactivateMissing {
      after := Deactivated(after, d.missing);
    }
  }

  /** What a run leaves. */
  function Seeded(table: Table, ms: seq<Merchant>, deactivateMissing: bool): Table {
    var up := Upserted(table, ApplyOrder(table, ms));
    if deactivateMissing then Deactivated(up, Missing(table, ms)) else up
  }

  lemma SeededAt(table: Table, ms: seq<Merchant>, deactivateMissing: bool, m: Merchant)
    requires DistinctSlugs(ms) && m in ms
    ensures var after := Seeded(table, ms, deactivateMissing); m.slug in after && after[m.slug] == RowOf(m)
  {
    var order, up := ApplyOrder(table, ms), Upserted(table, ApplyOrder(table, ms));
    UpsertedAt(table, order);
    InListed(ms, m);
    if m in order {
      assert m.slug in up;
    }
    forall o | o in order && o.slug == m.slug
      ensures o == m
    {
      assert o in ms;
      SameSlugSame(ms, o, m);
    }
    assert m !in order ==> m.slug in table && table[m.slug] == RowOf(m);
    if m in order && m.slug in table && up[m.slug] == table[m.slug] {
      InListed(order, m);
      UpsertedListed(table, order, m);
    }
  }

  lemma {:induction false} UpsertedListed(table: Table, order: seq<Merchant>, m: Merchant)
    requires m in order && forall o :: o in order && o.slug == m.slug ==> o == m
    ensures m.slug in Upserted(table, order) && Upserted(table, order)[m.slug] == RowOf(m)
  {
    var init, last := order[..|order| - 1], order[|order| - 1];
    assert order == init + [last];
    if last != m {
      assert m in init && last in order;
      UpsertedListed(table, init, m);
    }
  }

  /** Planning again after a run finds nothing to insert or update, and after a deactivating run
      nothing missing; and no row was ever removed. */
  lemma ReplanIsEmpty(table: Table, ms: seq<Merchant>, deactivateMissing: bool)
    requires DistinctSlugs(ms)
    ensures var after := Seeded(table, ms, deactivateMissing);
      && Inserts(after, ms) == [] && Updates(after, ms) == []
      && (deactivateMissing ==> Missing(after, ms) == {})
      && table.Keys <= after.Keys
  {
    var after := Seeded(table, ms, deactivateMissing);
    UpsertedAt(table, ApplyOrder(table, ms));
    forall m | m in ms
      ensures m.slug in after && !Differs(after, m)
    {
      SeededAt(table, ms, deactivateMissing, m);
    }
    EmptyIfNone(Inserts(after, ms));
    EmptyIfNone(Updates(after, ms));
    if deactivateMissing {
      forall s | s in after && !Listed(ms, s)
        ensures !after[s].active
      {
        OnlyListed(table, ms, s);
      }
    }
  }

  lemma OnlyListed(table: Table, ms: seq<Merchant>, s: Slug)
    requires s in Upserted(table, ApplyOrder(table, ms)) && !Listed(ms, s)
    ensures s in table && Upserted(table, ApplyOrder(table, ms))[s] == table[s]
  {
    UpsertedAt(table, ApplyOrder(table, ms));
    forall m | m in ApplyOrder(table, ms)
      ensures m.slug != s
    {
      assert m in ms;
      InListed(ms, m);
    }
  }

  lemma EmptyIfNone(ms: seq<Merchant>)
    ensures ms == [] || exists m :: m in ms
  {
    assert ms == [] || ms[0] in ms;
  }
}
