/** Deletion tombstones kept by two databases and a journal: collecting one conflict-free plan from
    all three, and replaying until both databases hold every tombstone. */
module Recovery {
  import opened Basics

  const MAX_GENERATION := 9223372036854775807
  const PAGE := 100
  const MAX_JOURNAL := 100000
  const COLLECT_PAGES := 42
  const MAX_COLLECTED := 4096

  /** User and request ids are UUIDs, ordered as numbers. */
  datatype Tombstone = Tombstone(request: nat, user: nat, generation: int)

  predicate Valid(t: Tombstone) { 1 <= t.generation <= MAX_GENERATION }

  /** A user has one tombstone and a request one user. */
  predicate Fits(t: Tombstone, rows: set<Tombstone>) {
    forall o :: o in rows && (o.user == t.user || o.request == t.request) ==> o == t
  }

  predicate OneToOne(rows: set<Tombstone>) {
    forall t :: t in rows ==> Fits(t, rows)
  }

  // ---- the two databases -----------------------------------------------------------------------------

  datatype Request = Request(user: nat, generation: int, cancelled: bool, completed: bool)

  /** The product database: tombstones, and the deletion requests they refer to. */
  datatype Product = Product(rows: set<Tombstone>, requests: map<nat, Request>)

  /** What the schema keeps of the product rows. */
  predicate ProductOk(p: Product) {
    && OneToOne(p.rows) && (forall t :: t in p.rows ==> Valid(t))
    && (forall t :: t in p.rows ==> t.request in p.requests && p.requests[t.request].user == t.user)
  }

  /** The request row a tombstone needs: its own, not cancelled; or room for a new one, which the
      unique constraints on (user, generation) and on a user's active request allow. */
  predicate RequestOk(requests: map<nat, Request>, t: Tombstone) {
    if t.request in requests then
      var r := requests[t.request];
      r.user == t.user && r.generation == t.generation && !r.cancelled
    else forall id :: id in requests && requests[id].user == t.user ==>
        requests[id].generation != t.generation && requests[id].cancelled
  }

  /** `account_lifecycle.replay_tombstone`. */
  function ReplayProduct(p: Product, t: Tombstone): Option<Product> {
    if !Valid(t) then None
    else if exists o :: o in p.rows && o.user == t.user then (if t in p.rows then Some(p) else None)
    else if !RequestOk(p.requests, t) then None
    else Some(Product(p.rows + {t}, p.requests[t.request := Request(t.user, t.generation, false, true)]))
  }

  /** `auth_private.apply_account_deletion`. */
  function ReplayAuth(rows: set<Tombstone>, t: Tombstone): Option<set<Tombstone>> {
    if !Valid(t) || !Fits(t, rows) then None else Some(rows + {t})
  }

  // ---- paging ----------------------------------------------------------------------------------------

  predicate After(cursor: Option<nat>, t: Tombstone) { cursor.None? || t.user > cursor.value }

  predicate Increasing(page: seq<Tombstone>) {
    forall i, j :: 0 <= i < j < |page| ==> page[i].user < page[j].user
  }

  /** A page of a listing: the first rows past the cursor, by user, at most `limit`. */
  predicate IsPage(rows: set<Tombstone>, cursor: Option<nat>, limit: nat, page: seq<Tombstone>) {
    && |page| <= limit && Increasing(page)
    && (forall t :: t in page ==> t in rows && After(cursor, t))
    && (forall t :: t in rows && After(cursor, t) && t !in page ==> |page| == limit && forall o :: o in page ==>
        o.user < t.user)
  }

  method Least(rows: set<Tombstone>) returns (t: Tombstone)
    requires rows != {}
    ensures t in rows && forall o :: o in rows ==> t.user <= o.user
  {
    t :| t in rows;
    var todo := rows;
    while todo != {}
      invariant todo <= rows && t in rows && forall o :: o in rows && o !in todo ==> t.user <= o.user
      decreases |todo|
    {
      var o :| o in todo;
      if o.user < t.user {
        t := o;
      }
      todo := todo - {o};
    }
  }

  /** `list_tombstones` and `list_deletion_tombstones`. */
  method ListPage(rows: set<Tombstone>, cursor: Option<nat>, limit: nat) returns (page: seq<Tombstone>)
    requires OneToOne(rows)
    ensures IsPage(rows, cursor, limit, page)
  {
    page := [];
    var rest := set t | t in rows && After(cursor, t);
    while rest != {} && |page| < limit
      invariant |page| <= limit && Increasing(page)
      invariant forall t :: t in page ==> t in rows && After(cursor, t)
      invariant forall t :: t in rows && After(cursor, t) <==> t in page || t in rest
      invariant forall o, t :: o in page && t in rest ==> o.user < t.user
      decreases |rest|
    {
      var t := Least(rest);
      assert forall o :: o in rest && o != t ==> t.user < o.user by {
        assert Fits(t, rows);
      }
      page := page + [t];
      rest := rest - {t};
    }
  }

  function Members(page: seq<Tombstone>): set<Tombstone> { set t | t in page }

  lemma {:induction false} PageSize(page: seq<Tombstone>)
    requires Increasing(page)
    ensures |Members(page)| == |page|
  {
    if page != [] {
      var init, last := page[..|page| - 1], page[|page| - 1];
      PageSize(init);
      assert Members(page) == Members(init) + {last};
      assert last !in Members(init);
    }
  }

  /** The rows up to a cursor. */
  function Upto(rows: set<Tombstone>, cursor: Option<nat>): set<Tombstone> {
    set t | t in rows && !After(cursor, t)
  }

  function LastUser(cursor: Option<nat>, page: seq<Tombstone>): Option<nat> {
    if page == [] then cursor else Some(page[|page| - 1].user)
  }

  /** A page moves the cursor over exactly its rows. */
  lemma PageStep(rows: set<Tombstone>, cursor: Option<nat>, limit: nat, page: seq<Tombstone>)
    requires IsPage(rows, cursor, limit, page)
    ensures Upto(rows, LastUser(cursor, page)) == Upto(rows, cursor) + Members(page)
    ensures |Upto(rows, LastUser(cursor, page))| == |Upto(rows, cursor)| + |page|
    ensures |page| < limit ==> Upto(rows, LastUser(cursor, page)) == rows
  {
    PageSize(page);
    var before, after := Upto(rows, cursor), Upto(rows, LastUser(cursor, page));
    assert page != [] ==> page[|page| - 1] in page;
    forall t | t in page
      ensures t in after && t !in before
    {
      var i :| 0 <= i < |page| && page[i] == t;
    }
    assert after == before + Members(page);
    assert before !! Members(page);
  }

  lemma UptoNone(rows: set<Tombstone>)
    ensures Upto(rows, None) == {}
  {
  }

  lemma PageRows(rows: set<Tombstone>, cursor: Option<nat>, limit: nat, page: seq<Tombstone>)
    requires IsPage(rows, cursor, limit, page)
    ensures Members(page) <= rows && Upto(rows, LastUser(cursor, page)) <= rows
    ensures (forall t :: t in page ==> Valid(t)) && (forall t :: t in Upto(rows, cursor) ==> Valid(t))
        ==> forall t :: t in Upto(rows, LastUser(cursor, page)) ==> Valid(t)
  {
  }

  // ---- one plan from three sources --------------------------------------------------------------------

  datatype Refusal = Invalid | Conflict | Capacity | PageLimit

  datatype Collected = Plan(rows: seq<Tombstone>) | Refused(why: Refusal)

  /** `users` and `requests` of the collector: the rows so far, by user and by request. */
  class Collector {
    const limit: nat
    var users: map<nat, Tombstone>
    var requests: map<nat, nat>

    constructor (limit: nat)
      ensures this.limit == limit && users == map[] && requests == map[]
    {
      this.limit := limit;
      users, requests := map[], map[];
    }

    function Rows(): set<Tombstone>
      reads this
    {
      RowsOf(users)
    }

    predicate Consistent()
      reads this
    {
      Indexed(users, requests)
    }

    lemma RowsOneToOne()
      requires Consistent()
      ensures OneToOne(Rows()) && |Rows()| == |users|
    {
      UsersSize(users);
    }

    /** `add`: refuses exactly an invalid row, one that contradicts a row already taken, and one
        past the limit. */
    method Add(t: Tombstone) returns (r: Option<Refusal>)
      requires Consistent() && |users| <= limit
      modifies this
      ensures r == if !Valid(t) then Some(Invalid) else if !Fits(t, old(Rows())) then Some(Conflict)
                   else if |old(Rows()) + {t}| > limit then Some(Capacity) else None
      ensures r.None? ==> Consistent() && |users| <= limit && Rows() == old(Rows()) + {t}
    {
      if !Valid(t) {
        return Some(Invalid);
      }
      if (t.user in users && users[t.user] != t) || (t.request in requests && requests[t.request] != t.user) {
        Contradicts(users, requests, t);
        return Some(Conflict);
      }
      Taken(users, requests, t);
      UsersSize(users[t.user := t]);
      users := users[t.user := t];
      requests := requests[t.request := t.user];
      if |users| > limit {
        return Some(Capacity);
      }
      return None;
    }

    /** Takes a list; what it refuses, any plan with these rows would refuse. */
    method Take(list: seq<Tombstone>, ghost all: set<Tombstone>) returns (r: Option<Refusal>)
      requires Consistent() && |users| <= limit && Rows() + Members(list) <= all
      modifies this
      ensures r.None? ==> Consistent() && |users| <= limit && Rows() == old(Rows()) + Members(list)
      ensures r.None? ==> forall t :: t in list ==> Valid(t)
      ensures r.Some? ==> !Plannable(all, limit) && r != Some(PageLimit)
    {
      hide Plannable, Indexed, Fits, RowsOf;
      var i := 0;
      assert Members(list[..0]) == {};
      while i < |list|
        invariant 0 <= i <= |list|
        invariant Consistent() && |users| <= limit && Rows() == old(Rows()) + Members(list[..i])
        invariant forall t :: t in list[..i] ==> Valid(t)
      {
        ghost var so := Rows();
        r := Add(list[i]);
        MembersStep(list, i);
        assert list[..i + 1] == list[..i] + [list[i]];
        assert so <= all && list[i] in all;
        hide Members;
        if r.Some? {
          RefusedOne(so, all, list[i], limit);
          return;
        }
        i := i + 1;
      }
      assert list[..|list|] == list;
      r := None;
    }

    /** Takes one database's rows, page by page. */
    method TakeAll(rows: set<Tombstone>) returns (r: Option<Refusal>)
      requires Consistent() && |users| <= limit <= MAX_COLLECTED && OneToOne(rows)
      modifies this
      ensures r.None? ==> Consistent() && |users| <= limit && Rows() == old(Rows()) + rows
      ensures r.None? ==> forall t :: t in rows ==> Valid(t)
      ensures r.Some? ==> !Plannable(old(Rows()) + rows, limit) && r != Some(PageLimit)
    {
      hide OneToOne, Indexed, RowsOf, Plannable, IsPage;
      var cursor: Option<nat>, page := None, 0;
      assert Upto(rows, None) == {};
      while page < COLLECT_PAGES
        invariant 0 <= page <= COLLECT_PAGES && PAGE * page <= limit
        invariant Consistent() && |users| <= limit && Rows() == old(Rows()) + Upto(rows, cursor)
        invariant |Upto(rows, cursor)| == PAGE * page && forall t :: t in Upto(rows, cursor) ==> Valid(t)
      {
        var batch := ListPage(rows, cursor, PAGE);
        PageStep(rows, cursor, PAGE, batch);
        r := Take(batch, old(Rows()) + rows);
        if r.Some? {
          return;
        }
        cursor := LastUser(cursor, batch);
        RowsOneToOne();
        if |batch| < PAGE {
          return None;
        }
        page := page + 1;
        SubsetSize(Upto(rows, cursor), Rows());
      }
      assert false;
    }
  }

  /** What one plan can hold. */
  predicate Plannable(all: set<Tombstone>, limit: nat) {
    (forall t :: t in all ==> Valid(t)) && OneToOne(all) && |all| <= limit
  }

  lemma FewerPlannable(some: set<Tombstone>, all: set<Tombstone>, limit: nat)
    requires some <= all && Plannable(all, limit)
    ensures Plannable(some, limit)
  {
    SubsetSize(some, all);
  }

  function RowsOf(users: map<nat, Tombstone>): set<Tombstone> { set u | u in users :: users[u] }

  /** `users` and `requests` index the same rows. */
  predicate Indexed(users: map<nat, Tombstone>, requests: map<nat, nat>) {
    && (forall u :: u in users ==> users[u].user == u && Valid(users[u])
                                   && users[u].request in requests && requests[users[u].request] == u)
    && (forall r :: r in requests ==> requests[r] in users && users[requests[r]].request == r)
  }

  lemma Contradicts(users: map<nat, Tombstone>, requests: map<nat, nat>, t: Tombstone)
    requires Indexed(users, requests)
    requires (t.user in users && users[t.user] != t) || (t.request in requests && requests[t.request] != t.user)
    ensures !Fits(t, RowsOf(users))
  {
  }

  lemma Taken(users: map<nat, Tombstone>, requests: map<nat, nat>, t: Tombstone)
    requires Indexed(users, requests) && Valid(t)
    requires (t.user in users ==> users[t.user] == t) && (t.request in requests ==> requests[t.request] == t.user)
    ensures Fits(t, RowsOf(users))
    ensures Indexed(users[t.user := t], requests[t.request := t.user]) && RowsOf(users[t.user := t])
            == RowsOf(users) + {t}
  {
    var more := users[t.user := t];
    forall o | o in RowsOf(users)
      ensures o in RowsOf(more)
    {
      assert o.user in users && more[o.user] == o;
    }
    assert more[t.user] in RowsOf(more);
  }

  /** A refused row refuses the whole plan. */
  lemma RefusedOne(taken: set<Tombstone>, all: set<Tombstone>, t: Tombstone, limit: nat)
    requires taken <= all && t in all
    requires !Valid(t) || !Fits(t, taken) || |taken + {t}| > limit
    ensures !Plannable(all, limit)
  {
    SubsetSize(taken + {t}, all);
  }

  lemma {:induction false} UsersSize(users: map<nat, Tombstone>)
    requires forall u :: u in users ==> users[u].user == u
    ensures |RowsOf(users)| == |users|
    decreases |users|
  {
    if users == map[] {
      assert RowsOf(users) == {};
    } else {
      var u :| u in users;
      var rest := users - {u};
      UsersSize(rest);
      forall t | t in RowsOf(users) && t != users[u]
        ensures t in RowsOf(rest)
      {
        assert t.user in rest && rest[t.user] == t;
      }
      assert RowsOf(users) == RowsOf(rest) + {users[u]};
      assert |users| == |rest| + 1;
    }
  }

  method SortByUser(rows: set<Tombstone>) returns (sorted: seq<Tombstone>)
    requires OneToOne(rows)
    ensures Increasing(sorted) && Members(sorted) == rows
  {
    sorted := ListPage(rows, None, |rows|);
    PageSize(sorted);
    if Members(sorted) != rows {
      var t :| t in rows && t !in sorted;
      SubsetSize(Members(sorted) + {t}, rows);
      assert false;
    }
  }

  /** `collectRetainedTombstones`: succeeds exactly when the three sources together are valid, map
      users and requests one to one, and fit; and then lists every row once, by user. The page
      limit is never what stops it. */
  method Collect(product: set<Tombstone>, auth: set<Tombstone>, retained: seq<Tombstone>,
                 maxRecords: nat) returns (r: Collected)
    requires OneToOne(product) && OneToOne(auth) && 1 <= maxRecords <= MAX_COLLECTED
    ensures r.Plan? <==> Plannable(Members(retained) + product + auth, maxRecords)
    ensures r.Plan? ==> Increasing(r.rows) && Members(r.rows) == Members(retained) + product + auth
    ensures r != Refused(PageLimit)
  {
    var c := new Collector(maxRecords);
    ghost var all := Members(retained) + product + auth;
    assert c.Rows() == {};
    var bad := c.Take(retained, Members(retained));
    if bad.None? {
      bad := c.TakeAll(product);
    }
    if bad.None? {
      bad := c.TakeAll(auth);
    }
    if bad.Some? {
      if Plannable(all, maxRecords) {
        FewerPlannable(Members(retained), all, maxRecords);
        FewerPlannable(Members(retained) + product, all, maxRecords);
      }
      return Refused(bad.value);
    }
    c.RowsOneToOne();
    var rows := SortByUser(c.Rows());
    return Plan(rows);
  }

  // ---- replaying into both databases ------------------------------------------------------------------

  /** The three sources together: valid, one to one, and with a request row for every tombstone the
      product database lacks. */
  predicate Reconcilable(p: Product, auth: set<Tombstone>, journal: set<Tombstone>) {
    var all := journal + p.rows + auth;
    && (forall t :: t in all ==> Valid(t)) && OneToOne(all)
    && forall t :: t in all && t !in p.rows ==> RequestOk(p.requests, t)
  }

  /** `p` is `before` with the tombstones of `taken` replayed. */
  predicate Reached(before: Product, p: Product, taken: set<Tombstone>) {
    && p.rows == before.rows + taken && (p.rows == before.rows ==> p == before)
    && (forall id :: id in before.requests ==>
          id in p.requests && (p.requests[id] == before.requests[id]
                               || exists t :: t in taken && t.request == id && before.requests[id].user == t.user))
    && (forall id :: id in p.requests ==>
          || (id in before.requests && p.requests[id] == before.requests[id])
          || (exists t :: t in taken && t.request == id && p.requests[id].user == t.user))
  }

  /** Whether a new tombstone finds its request row does not depend on the others replayed. */
  lemma RequestUnaffected(before: Product, p: Product, taken: set<Tombstone>, t: Tombstone)
    requires Reached(before, p, taken)
    requires forall o :: o in taken ==> o.user != t.user && o.request != t.request
    ensures RequestOk(p.requests, t) <==> RequestOk(before.requests, t)
  {
  }

  /** A tombstone the product database accepted found its request row there from the start. */
  lemma AcceptedRequest(before: Product, p: Product, taken: set<Tombstone>, t: Tombstone)
    requires Reached(before, p, taken) && ProductOk(p) && ReplayProduct(p, t).Some? && t !in p.rows
    ensures RequestOk(before.requests, t) && ProductOk(ReplayProduct(p, t).value)
  {
    assert RequestOk(p.requests, t);
    forall o | o in p.rows
      ensures o.user != t.user && o.request != t.request
    {
      assert p.requests[o.request].user == o.user;
    }
    RequestUnaffected(before, p, taken, t);
  }

  lemma ReachedStep(before: Product, p: Product, taken: set<Tombstone>, t: Tombstone)
    requires Reached(before, p, taken) && ReplayProduct(p, t).Some?
    ensures Reached(before, ReplayProduct(p, t).value, taken + {t})
  {
  }

  /** When the sources reconcile, no replay of any of their rows is refused on the way. */
  lemma ReplayWorks(before: Product, auth0: set<Tombstone>, journal: set<Tombstone>, p: Product, auth: set<Tombstone>,
                    taken: set<Tombstone>, t: Tombstone)
    requires Reconcilable(before, auth0, journal) && Reached(before, p, taken)
    requires var all := journal + before.rows + auth0; t in all && p.rows <= all && auth <= all
    ensures ReplayProduct(p, t).Some? && ReplayAuth(auth, t).Some?
  {
  }

  /** What replaying `taken` from (`before`, `auth0`) has reached. */
  predicate ProgressOf(p: Product, auth: set<Tombstone>, before: Product, auth0: set<Tombstone>, taken: set<Tombstone>,
                       all: set<Tombstone>)
  {
    && Reached(before, p, taken) && auth == auth0 + taken && before.rows + auth0 + taken <= all
    && ProductOk(p) && OneToOne(auth) && forall t :: t in taken && t !in before.rows ==> RequestOk(before.requests, t)
  }

  /** One row replayed into both databases. */
  lemma BothStep(p: Product, auth: set<Tombstone>, before: Product, auth0: set<Tombstone>, taken: set<Tombstone>,
                 journal: set<Tombstone>, t: Tombstone)
    requires var all := journal + before.rows + auth0; t in all && ProgressOf(p, auth, before, auth0, taken, all)
    ensures var q, a := ReplayProduct(p, t), ReplayAuth(auth, t);
      && (q.Some? && a.Some? ==>
          ProgressOf(q.value, a.value, before, auth0, taken + {t}, journal + before.rows + auth0) && Valid(t))
      && (q.None? || a.None? ==> !Reconcilable(before, auth0, journal))
  {
    hide ReplayProduct, ReplayAuth, ProgressOf, Reconcilable;
    if Reconcilable(before, auth0, journal) {
      Advances(p, auth, before, auth0, taken, journal, t);
    }
    if ReplayProduct(p, t).Some? && ReplayAuth(auth, t).Some? {
      Advanced(p, auth, before, auth0, taken, journal + before.rows + auth0, t);
    }
  }

  lemma Advances(p: Product, auth: set<Tombstone>, before: Product, auth0: set<Tombstone>, taken: set<Tombstone>,
                 journal: set<Tombstone>, t: Tombstone)
    requires var all := journal + before.rows + auth0; t in all && ProgressOf(p, auth, before, auth0, taken, all)
    requires Reconcilable(before, auth0, journal)
    ensures ReplayProduct(p, t).Some? && ReplayAuth(auth, t).Some?
  {
    hide Reconcilable, ReplayProduct, ReplayAuth, ProductOk, OneToOne;
    ReplayWorks(before, auth0, journal, p, auth, taken, t);
  }

  lemma Advanced(p: Product, auth: set<Tombstone>, before: Product, auth0: set<Tombstone>, taken: set<Tombstone>,
                 all: set<Tombstone>, t: Tombstone)
    requires t in all && ProgressOf(p, auth, before, auth0, taken, all) && ReplayProduct(p, t).Some?
             && ReplayAuth(auth, t).Some?
    ensures ProgressOf(ReplayProduct(p, t).value, ReplayAuth(auth, t).value, before, auth0, taken + {t}, all)
            && Valid(t)
  {
    ReachedStep(before, p, taken, t);
    if t !in p.rows {
      AcceptedRequest(before, p, taken, t);
    }
    StillOneToOne(auth, t);
    assert t in p.rows ==> ReplayProduct(p, t).value == p;
    assert t in p.rows ==> t in taken || t in before.rows;
    hide RequestOk, Reached, ProductOk, OneToOne, ReplayProduct;
    assert auth + {t} == auth0 + (taken + {t});
  }

  lemma StillOneToOne(auth: set<Tombstone>, t: Tombstone)
    requires OneToOne(auth) && Fits(t, auth)
    ensures OneToOne(auth + {t})
  {
  }

  /** What the two databases hold. */
  datatype Databases = Databases(product: Product, auth: set<Tombstone>)

  function Side(d: Databases, productSide: bool): set<Tombstone> {
    if productSide then d.product.rows else d.auth
  }

  predicate Progress(d: Databases, start: Databases, taken: set<Tombstone>, all: set<Tombstone>) {
    ProgressOf(d.product, d.auth, start.product, start.auth, taken, all)
  }

  /** Everything the three sources hold. */
  function All(start: Databases, journal: set<Tombstone>): set<Tombstone> {
    journal + start.product.rows + start.auth
  }

  predicate Mergeable(start: Databases, journal: set<Tombstone>) {
    Reconcilable(start.product, start.auth, journal)
  }

  lemma Reach(d: Databases, start: Databases, taken: set<Tombstone>, all: set<Tombstone>)
    requires Progress(d, start, taken, all)
    ensures d.product.rows == start.product.rows + taken && d.auth == start.auth + taken
    ensures d.product.rows <= all && d.auth <= all
    ensures d.product.rows == start.product.rows ==> d.product == start.product
    ensures ProductOk(d.product) && OneToOne(d.product.rows) && OneToOne(d.auth)
  {
  }

  /** `applyBoth`: the product database first. */
  method ApplyBoth(d: Databases, t: Tombstone, ghost start: Databases, ghost taken: set<Tombstone>,
                   ghost journal: set<Tombstone>)
    returns (ok: bool, after: Databases)
    requires t in All(start, journal) && Progress(d, start, taken, All(start, journal))
    ensures ok ==> Progress(after, start, taken + {t}, All(start, journal)) && Valid(t)
    ensures !ok ==> !Mergeable(start, journal)
  {
    hide ProgressOf, Reconcilable, ReplayProduct, ReplayAuth;
    after := d;
    BothStep(d.product, d.auth, start.product, start.auth, taken, journal, t);
    var p := ReplayProduct(d.product, t);
    if p.None? {
      return false, after;
    }
    after := after.(product := p.value);
    var a := ReplayAuth(d.auth, t);
    if a.None? {
      return false, after;
    }
    after := after.(auth := a.value);
    return true, after;
  }

  lemma MembersStep(list: seq<Tombstone>, i: nat)
    requires i < |list|
    ensures list[i] in Members(list) && Members(list[..i + 1]) == Members(list[..i]) + {list[i]}
    ensures Members(list[..0]) == {} && Members(list[..|list|]) == Members(list)
  {
  }

  lemma NoMembers(list: seq<Tombstone>)
    ensures Members(list[..0]) == {}
  {
  }

  /** Replays a list into both databases. */
  method ApplyList(d: Databases, list: seq<Tombstone>, ghost start: Databases, ghost taken: set<Tombstone>,
                   ghost journal: set<Tombstone>)
    returns (ok: bool, after: Databases)
    requires Members(list) <= All(start, journal) && Progress(d, start, taken, All(start, journal))
    ensures ok ==> Progress(after, start, taken + Members(list), All(start, journal))
    ensures ok ==> forall t :: t in list ==> Valid(t)
    ensures !ok ==> !Mergeable(start, journal)
  {
    hide Mergeable, Progress, All, Members;
    after := d;
    var i := 0;
    ghost var done: set<Tombstone> := {};
    assert taken + done == taken;
    NoMembers(list);
    while i < |list|
      invariant 0 <= i <= |list| && done == Members(list[..i])
                && Progress(after, start, taken + done, All(start, journal))
      invariant forall j :: 0 <= j < i ==> Valid(list[j])
    {
      MembersStep(list, i);
      ok, after := ApplyBoth(after, list[i], start, taken + done, journal);
      if !ok {
        return;
      }
      assert taken + (done + {list[i]}) == taken + done + {list[i]};
      done := done + {list[i]};
      i := i + 1;
    }
    assert list[..|list|] == list;
    ok := true;
  }

  /** Pages through one side's rows and replays each of them into both databases. */
  method ApplySide(d: Databases, productSide: bool, maxPages: nat, ghost start: Databases, ghost taken: set<Tombstone>,
                   ghost journal: set<Tombstone>)
    returns (ok: bool, after: Databases)
    requires Progress(d, start, taken, All(start, journal))
    ensures ok ==> Progress(after, start, taken + Side(d, productSide), All(start, journal))
    ensures ok ==> (forall t :: t in Side(d, productSide) ==> Valid(t)) && |Side(d, productSide)| < PAGE * maxPages
    ensures !ok ==> !Mergeable(start, journal) || |Side(d, productSide)| >= PAGE * maxPages
  {
    hide Mergeable, Progress, All, Members, OneToOne, IsPage, ProductOk, Upto, LastUser;
    ghost var rows, all := Side(d, productSide), All(start, journal);
    Reach(d, start, taken, all);
    after := d;
    var cursor: Option<nat>, page := None, 0;
    ghost var done: set<Tombstone> := {};
    UptoNone(rows);
    assert taken + done == taken;
    while page < maxPages
      invariant 0 <= page <= maxPages && done == Upto(rows, cursor) && |done| == PAGE * page && done <= rows
      invariant Progress(after, start, taken + done, all) && Side(after, productSide) == rows
      invariant forall t :: t in done ==> Valid(t)
    {
      Reach(after, start, taken + done, all);
      var batch := ListPage(Side(after, productSide), cursor, PAGE);
      PageStep(rows, cursor, PAGE, batch);
      PageRows(rows, cursor, PAGE, batch);
      ok, after := ApplyList(after, batch, start, taken + done, journal);
      if !ok {
        return;
      }
      assert taken + (done + Members(batch)) == taken + done + Members(batch);
      done := done + Members(batch);
      cursor := LastUser(cursor, batch);
      SideKept(after, productSide, start, taken, all, rows, done);
      if |batch| < PAGE {
        return true, after;
      }
      page := page + 1;
    }
    SubsetSize(done, rows);
    ok := false;
  }

  /** Replaying some of a side's own rows does not change that side. */
  lemma SideKept(d: Databases, productSide: bool, start: Databases, taken: set<Tombstone>, all: set<Tombstone>,
                 rows: set<Tombstone>, more: set<Tombstone>)
    requires Progress(d, start, taken + more, all) && more <= rows
    requires rows == if productSide then start.product.rows + taken else start.auth + taken
    ensures Side(d, productSide) == rows
  {
  }

  predicate Fitting(start: Databases, journal: seq<Tombstone>, maxPages: nat) {
    && |journal| <= MAX_JOURNAL
    && |Members(journal) + start.product.rows| < PAGE * maxPages && |All(start, Members(journal))| < PAGE * maxPages
  }

  /** What a successful run leaves: the union in both databases, and a product database that already
      held it as it was. */
  predicate Merged(start: Databases, journal: seq<Tombstone>, after: Databases) {
    && after.product.rows == after.auth == All(start, Members(journal))
    && ProductOk(after.product) && OneToOne(after.auth)
    && (All(start, Members(journal)) == start.product.rows ==> after.product == start.product)
  }

  /** What a run does, succeed or not. */
  predicate Ran(start: Databases, journal: seq<Tombstone>, maxPages: nat, ok: bool, after: Databases) {
    && (ok <==> Mergeable(start, Members(journal)) && Fitting(start, journal, maxPages))
    && (ok ==> Merged(start, journal, after))
  }

  /** `reconcileAccountLifecycleTombstones`: the journal's rows, then every product row, then every
      auth row, each into both databases. It succeeds exactly when the three sources reconcile and
      fit the limits; both databases then hold the union of the three. */
  method Reconcile(start: Databases, journal: seq<Tombstone>, maxPages: nat) returns (ok: bool, after: Databases)
    requires ProductOk(start.product) && OneToOne(start.auth) && 1 <= maxPages <= 1000
    ensures ok <==> Mergeable(start, Members(journal)) && Fitting(start, journal, maxPages)
    ensures ok ==> Merged(start, journal, after)
  {
    hide Mergeable, Progress, OneToOne, ProductOk, Members;
    ghost var rows := Members(journal);
    ghost var all := All(start, rows);
    Untouched(start, rows);
    if |journal| > MAX_JOURNAL {
      // The rows within the limit are replayed before the limit is noticed.
      FewerMembers(journal, MAX_JOURNAL);
      ok, after := ApplyList(start, journal[..MAX_JOURNAL], start, {}, rows);
      return false, after;
    }
    ok, after := ApplyList(start, journal, start, {}, rows);
    if !ok {
      return;
    }
    assert {} + rows == rows;
    Reach(after, start, rows, all);
    assert after.product.rows == rows + start.product.rows;
    ok, after := ApplySide(after, true, maxPages, start, rows, rows);
    if !ok {
      return;
    }
    ghost var taken := rows + (rows + start.product.rows);
    Reach(after, start, taken, all);
    assert after.auth == all;
    ok, after := ApplySide(after, false, maxPages, start, taken, rows);
    if ok {
      Reach(after, start, taken + all, all);
      Done(after, start, rows, taken + all);
    }
  }

  lemma Untouched(start: Databases, rows: set<Tombstone>)
    requires ProductOk(start.product) && OneToOne(start.auth)
    ensures Progress(start, start, {}, All(start, rows))
  {
  }

  lemma FewerMembers(list: seq<Tombstone>, n: nat)
    requires n <= |list|
    ensures Members(list[..n]) <= Members(list)
  {
  }

  lemma Done(d: Databases, start: Databases, rows: set<Tombstone>, taken: set<Tombstone>)
    requires Progress(d, start, taken, All(start, rows)) && All(start, rows) <= taken
    requires forall t :: t in All(start, rows) ==> Valid(t)
    ensures Mergeable(start, rows) && d.product.rows == d.auth == All(start, rows)
  {
  }

  lemma Settled(d: Databases, journal: set<Tombstone>)
    requires ProductOk(d.product) && d.auth == d.product.rows && journal <= d.auth
    ensures Mergeable(d, journal)
  {
  }

  /** What a success leaves reconciles and fits again, and is all there is. */
  lemma MergedAgain(start: Databases, journal: seq<Tombstone>, maxPages: nat, once: Databases)
    requires Fitting(start, journal, maxPages) && Merged(start, journal, once)
    ensures Mergeable(once, Members(journal)) && Fitting(once, journal, maxPages)
    ensures All(once, Members(journal)) == once.product.rows == once.auth
  {
    hide Members, OneToOne;
    assert All(once, Members(journal)) == All(start, Members(journal));
    assert Members(journal) + once.product.rows == once.product.rows;
    Settled(once, Members(journal));
  }

  /** Whatever a run left when it succeeded, any run after it with the same journal succeeds and
      changes nothing. */
  lemma RanTwice(start: Databases, journal: seq<Tombstone>, maxPages: nat, once: Databases, again: bool,
                 twice: Databases)
    requires Ran(start, journal, maxPages, true, once) && Ran(once, journal, maxPages, again, twice)
    ensures again && twice == once
  {
    hide Members, OneToOne, Mergeable, ProductOk, Fitting;
    MergedAgain(start, journal, maxPages, once);
  }

  /** Two runs, the second on what the first left. */
  method ReconcileTwice(start: Databases, journal: seq<Tombstone>, maxPages: nat)
    returns (ok: bool, once: Databases, again: bool, twice: Databases)
    requires ProductOk(start.product) && OneToOne(start.auth) && 1 <= maxPages <= 1000
    ensures Ran(start, journal, maxPages, ok, once)
    ensures ok ==> Ran(once, journal, maxPages, again, twice) && again && twice == once
  {
    hide OneToOne, Members, Mergeable, Fitting;
    ok, once := Reconcile(start, journal, maxPages);
    again, twice := false, once;
    if ok {
      again, twice := Reconcile(once, journal, maxPages);
      RanTwice(start, journal, maxPages, once, again, twice);
    }
  }
}
