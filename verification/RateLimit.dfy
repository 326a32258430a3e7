/** The process-local feedback limiter: a fixed window per identity, in a bounded table. Times are
    milliseconds. */
module RateLimit {
  import opened Basics

  datatype Config = Config(window: int, authenticated: nat, anonymous: nat, maxEntries: nat, failOpen: bool)

  predicate WellFormed(c: Config) {
    c.window >= 1 && c.authenticated >= 1 && c.anonymous >= 1 && c.maxEntries >= 1
  }

  datatype Attempt = Attempt(count: nat, resetAt: int)

  /** `user:` or `ip:` with the identity. */
  datatype Key = Key(user: bool, identity: string)

  type Attempts = map<Key, Attempt>

  datatype State = State(attempts: Attempts, nextPruneAt: int)

  /** A call with an empty identity stands for one whose identity is no usable string. */
  datatype Call = Call(identity: string, user: bool, now: int)

  function LimitOf(c: Config, user: bool): nat { if user then c.authenticated else c.anonymous }

  function Ceiling(ms: int): int { (ms + 999) / 1000 }

  function Pruned(attempts: Attempts, now: int): Attempts {
    map k | k in attempts && attempts[k].resetAt > now :: attempts[k]
  }

  function Swept(c: Config, s: State, now: int): State {
    if now >= s.nextPruneAt then State(Pruned(s.attempts, now), now + Min(c.window, 60_000)) else s
  }

  predicate Live(attempts: Attempts, k: Key, now: int) { k in attempts && attempts[k].resetAt > now }

  /** The decision on a swept table. */
  function Judged(c: Config, t: State, k: Key, now: int): (State, bool) {
    if Live(t.attempts, k, now) then
      var e := t.attempts[k];
      if e.count >= LimitOf(c, k.user) then (t, false)
      else (t.(attempts := t.attempts[k := e.(count := e.count + 1)]), true)
    else if k !in t.attempts && |t.attempts| >= c.maxEntries then (t, c.failOpen)
    else (t.(attempts := t.attempts[k := Attempt(1, now + c.window)]), true)
  }

  /** Whether a call is allowed, and the table after it. */
  function Decide(c: Config, s: State, call: Call): (State, bool) {
    if call.identity == "" then (s, false)
    else Judged(c, Swept(c, s, call.now), Key(call.user, call.identity), call.now)
  }

  class Limiter {
    const config: Config
    var attempts: Attempts
    var nextPruneAt: int

    constructor (config: Config)
      ensures this.config == config && attempts == map[] && nextPruneAt == 0
    {
      this.config := config;
      attempts, nextPruneAt := map[], 0;
    }

    function Current(): State
      reads this
    {
      State(attempts, nextPruneAt)
    }

    /** `consume`. A refusal for a spent budget names a wait that reaches the end of the window. */
    method Consume(identity: string, user: bool, now: int) returns (allowed: bool, retryAfterSeconds: int)
      requires WellFormed(config)
      modifies this
      ensures var d := Decide(config, old(Current()), Call(identity, user, now)); Current() == d.0 && allowed == d.1
      ensures allowed <==> retryAfterSeconds == 0
      ensures !allowed && identity != "" && Live(attempts, Key(user, identity), now) ==>
                now + 1000 * retryAfterSeconds >= attempts[Key(user, identity)].resetAt
    {
      if identity == "" {
        return false, Ceiling(config.window);
      }
      if now >= nextPruneAt {
        var todo := attempts.Keys;
        while todo != {}
          invariant todo <= old(attempts).Keys && nextPruneAt == old(nextPruneAt)
          invariant forall k :: k in attempts <==> k in old(attempts) && (k in todo || old(attempts)[k].resetAt > now)
          invariant forall k :: k in attempts ==> attempts[k] == old(attempts)[k]
          decreases |todo|
        {
          var k :| k in todo;
          if k in attempts && attempts[k].resetAt <= now {
            attempts := attempts - {k};
          }
          todo := todo - {k};
        }
        assert attempts == Pruned(old(attempts), now);
        nextPruneAt := now + Min(config.window, 60_000);
      }
      assert Current() == Swept(config, old(Current()), now);
      var k, limit := Key(user, identity), LimitOf(config, user);
      if k in attempts && attempts[k].resetAt > now {
        if attempts[k].count >= limit {
          return false, Max(1, Ceiling(attempts[k].resetAt - now));
        }
        attempts := attempts[k := attempts[k].(count := attempts[k].count + 1)];
        return true, 0;
      }
      if k !in attempts && |attempts| >= config.maxEntries {
        if config.failOpen {
          return true, 0;
        }
        return false, Max(1, Ceiling(nextPruneAt - now));
      }
      attempts := attempts[k := Attempt(1, now + config.window)];
      return true, 0;
    }
  }

  // ---- runs -------------------------------------------------------------------------------------------------

  function Run(c: Config, s: State, calls: seq<Call>): State
    decreases |calls|
  {
    if calls == [] then s else Run(c, Decide(c, s, calls[0]).0, calls[1..])
  }

  predicate InOrder(calls: seq<Call>, from: int) {
    calls == [] || (from <= calls[0].now && InOrder(calls[1..], calls[0].now))
  }

  predicate Hits(k: Key, t: int, window: int, call: Call) {
    call.identity != "" && Key(call.user, call.identity) == k && t <= call.now < t + window
  }

  /** The allowed calls of `k` in the window-long interval from `t`. */
  function AllowedIn(c: Config, s: State, calls: seq<Call>, k: Key, t: int): nat
    decreases |calls|
  {
    if calls == [] then 0
    else
      var d := Decide(c, s, calls[0]);
      (if d.1 && Hits(k, t, c.window, calls[0]) then 1 else 0) + AllowedIn(c, d.0, calls[1..], k, t)
  }

  /** The table fits, and no entry counts past its limit or outlives its window. */
  predicate Bounded(c: Config, s: State, now: int) {
    && |s.attempts| <= c.maxEntries
    && forall k :: k in s.attempts ==>
       1 <= s.attempts[k].count <= LimitOf(c, k.user) && s.attempts[k].resetAt <= now + c.window
  }

  lemma PrunedSize(attempts: Attempts, now: int)
    ensures |Pruned(attempts, now)| <= |attempts|
  {
    var p := Pruned(attempts, now);
    assert p.Keys <= attempts.Keys;
    SubsetSize(p.Keys, attempts.Keys);
    assert |p.Keys| == |p| && |attempts.Keys| == |attempts|;
  }

  lemma UpdateSize(m: Attempts, k: Key, v: Attempt)
    ensures |m[k := v]| == |m| + if k in m then 0 else 1
  {
  }

  lemma SweptBounded(c: Config, s: State, now: int, later: int)
    requires WellFormed(c) && Bounded(c, s, now) && now <= later
    ensures Bounded(c, Swept(c, s, later), later)
  {
    PrunedSize(s.attempts, later);
  }

  lemma PutBounded(c: Config, s: State, k: Key, v: Attempt, now: int)
    requires Bounded(c, s, now) && (k in s.attempts || |s.attempts| < c.maxEntries)
    requires 1 <= v.count <= LimitOf(c, k.user) && v.resetAt <= now + c.window
    ensures Bounded(c, s.(attempts := s.attempts[k := v]), now)
  {
    UpdateSize(s.attempts, k, v);
  }

  lemma JudgedBounded(c: Config, t: State, k: Key, now: int)
    requires WellFormed(c) && Bounded(c, t, now)
    ensures Bounded(c, Judged(c, t, k, now).0, now)
  {
    OneWithin(c, k.user);
    assert k in t.attempts ==>
           1 <= t.attempts[k].count <= LimitOf(c, k.user) && t.attempts[k].resetAt <= now + c.window;
    hide Bounded, LimitOf;
    if Live(t.attempts, k, now) {
      var e := t.attempts[k];
      if e.count < LimitOf(c, k.user) {
        PutBounded(c, t, k, e.(count := e.count + 1), now);
      }
    } else if k in t.attempts || |t.attempts| < c.maxEntries {
      PutBounded(c, t, k, Attempt(1, now + c.window), now);
    }
  }

  lemma StepBounded(c: Config, s: State, call: Call, now: int)
    requires WellFormed(c) && Bounded(c, s, now) && now <= call.now
    ensures Bounded(c, Decide(c, s, call).0, call.now)
  {
    if call.identity != "" {
      SweptBounded(c, s, now, call.now);
      hide Swept, Judged;
      JudgedBounded(c, Swept(c, s, call.now), Key(call.user, call.identity), call.now);
    }
  }

  lemma OneWithin(c: Config, user: bool)
    requires WellFormed(c)
    ensures LimitOf(c, user) >= 1
  {
  }

  /** The table never exceeds its maximum, in any run. */
  lemma {:induction false} TableBounded(c: Config, s: State, calls: seq<Call>, now: int)
    requires WellFormed(c) && Bounded(c, s, now) && InOrder(calls, now)
    ensures |Run(c, s, calls).attempts| <= c.maxEntries
    decreases |calls|
  {
    if calls != [] {
      StepBounded(c, s, calls[0], now);
      TableBounded(c, Decide(c, s, calls[0]).0, calls[1..], calls[0].now);
    }
  }

  /** No call, pruning or not, loses the live count of any identity. */
  lemma LiveKept(c: Config, s: State, call: Call, k: Key)
    requires Live(s.attempts, k, call.now)
    ensures var after := Decide(c, s, call).0;
      Live(after.attempts, k, call.now) && after.attempts[k].resetAt == s.attempts[k].resetAt
      && after.attempts[k].count >= s.attempts[k].count
  {
  }

  // ---- the rate ---------------------------------------------------------------------------------------------

  /** With `spent` calls of `k` allowed in the interval from `t` so far: they are in the entry's
      window, or in it and one before. */
  predicate Accounted(c: Config, s: State, k: Key, t: int, spent: nat, now: int) {
    && spent <= 2 * LimitOf(c, k.user)
    && (0 < spent && now < t + c.window ==>
          && t <= now
          && if k in s.attempts then
               if s.attempts[k].resetAt - c.window < t then spent <= s.attempts[k].count
               else spent <= LimitOf(c, k.user) + s.attempts[k].count
             else spent <= LimitOf(c, k.user))
  }

  lemma SweptAccounted(c: Config, s: State, k: Key, t: int, spent: nat, now: int, later: int)
    requires WellFormed(c) && Bounded(c, s, now) && Accounted(c, s, k, t, spent, now) && now <= later
    ensures Accounted(c, Swept(c, s, later), k, t, spent, later) && forall j :: j in Swept(c, s, later).attempts ==>
            j in s.attempts && Swept(c, s, later).attempts[j] == s.attempts[j]
  {
  }

  lemma StepAccounted(c: Config, s: State, call: Call, k: Key, t: int, spent: nat, now: int)
    requires WellFormed(c) && !c.failOpen && Bounded(c, s, now) && Accounted(c, s, k, t, spent, now) && now <= call.now
    ensures var d := Decide(c, s, call);
      Accounted(c, d.0, k, t, spent + if d.1 && Hits(k, t, c.window, call) then 1 else 0, call.now)
  {
    SweptAccounted(c, s, k, t, spent, now, call.now);
  }

  lemma {:induction false} RunAccounted(c: Config, s: State, calls: seq<Call>, k: Key, t: int, spent: nat, now: int)
    requires WellFormed(c) && !c.failOpen && Bounded(c, s, now) && Accounted(c, s, k, t, spent, now)
             && InOrder(calls, now)
    ensures spent + AllowedIn(c, s, calls, k, t) <= 2 * LimitOf(c, k.user)
    decreases |calls|
  {
    if calls != [] {
      hide Decide, Bounded, Accounted, Hits;
      StepBounded(c, s, calls[0], now);
      StepAccounted(c, s, calls[0], k, t, spent, now);
      var d := Decide(c, s, calls[0]);
      RunAccounted(c, d.0, calls[1..], k, t, spent + if d.1 && Hits(k, t, c.window, calls[0]) then 1
                   else 0, calls[0].now);
    } else {
      assert AllowedIn(c, s, calls, k, t) == 0;
    }
  }

  /** Failing closed, with a clock that does not run back, an identity has at most twice its limit
      of calls allowed in any interval one window long. */
  lemma RateBound(c: Config, calls: seq<Call>, k: Key, t: int, from: int)
    requires WellFormed(c) && !c.failOpen && InOrder(calls, from)
    ensures AllowedIn(c, State(map[], 0), calls, k, t) <= 2 * LimitOf(c, k.user)
  {
    RunAccounted(c, State(map[], 0), calls, k, t, 0, from);
  }

  function Repeat(call: Call, n: nat): seq<Call> {
    if n == 0 then [] else [call] + Repeat(call, n - 1)
  }

  lemma {:induction false} FullAllowsAll(c: Config, s: State, call: Call, n: nat)
    requires WellFormed(c) && c.failOpen && call.identity != "" && |s.attempts| >= c.maxEntries
             && call.now < s.nextPruneAt
    requires Key(call.user, call.identity) !in s.attempts
    ensures AllowedIn(c, s, Repeat(call, n), Key(call.user, call.identity), call.now) == n
  {
    if n > 0 {
      assert Repeat(call, n)[1..] == Repeat(call, n - 1);
      FullAllowsAll(c, s, call, n - 1);
    }
  }

  function Name(length: nat): (name: string)
    ensures |name| == length
  {
    if length == 0 then "" else "a" + Name(length - 1)
  }

  /** Calls of users `i + 1` to `n`, all at once, then `rest`. */
  function FillThen(i: nat, n: nat, rest: seq<Call>): seq<Call>
    requires i <= n
    decreases n - i
  {
    if i == n then rest else [Call(Name(i + 1), true, 0)] + FillThen(i + 1, n, rest)
  }

  /** A table of the first `i` users. */
  predicate FilledTo(c: Config, s: State, i: nat) {
    && |s.attempts| == i <= c.maxEntries && (if i == 0 then s.nextPruneAt == 0 else s.nextPruneAt > 0)
    && forall k :: k in s.attempts ==> k.user && |k.identity| <= i
  }

  lemma FillStep(c: Config, s: State, i: nat)
    requires WellFormed(c) && FilledTo(c, s, i) && i < c.maxEntries
    ensures FilledTo(c, Decide(c, s, Call(Name(i + 1), true, 0)).0, i + 1)
  {
    var k := Key(true, Name(i + 1));
    assert i == 0 ==> s.attempts == map[];
    assert Pruned(map[], 0) == map[];
    assert k !in s.attempts;
    UpdateSize(s.attempts, k, Attempt(1, c.window));
  }

  lemma {:induction false} FilledAllowsAll(c: Config, s: State, i: nat, n: nat)
    requires WellFormed(c) && c.failOpen && FilledTo(c, s, i)
    ensures AllowedIn(c, s, FillThen(i, c.maxEntries, Repeat(Call("a", false, 0), n)), Key(false, "a"), 0) == n
    decreases c.maxEntries - i
  {
    if i == c.maxEntries {
      FullAllowsAll(c, s, Call("a", false, 0), n);
    } else {
      hide Decide, FilledTo;
      FillStep(c, s, i);
      var rest := FillThen(i + 1, c.maxEntries, Repeat(Call("a", false, 0), n));
      assert ([Call(Name(i + 1), true, 0)] + rest)[1..] == rest;
      FilledAllowsAll(c, Decide(c, s, Call(Name(i + 1), true, 0)).0, i + 1, n);
    }
  }

  lemma {:induction false} FillInOrder(i: nat, n: nat, rest: seq<Call>)
    requires i <= n && InOrder(rest, 0)
    ensures InOrder(FillThen(i, n, rest), 0)
    decreases n - i
  {
    if i < n {
      FillInOrder(i + 1, n, rest);
      assert FillThen(i, n, rest)[1..] == FillThen(i + 1, n, rest);
    }
  }

  /** A configuration lets some identity past twice its limit within one window exactly when it
      fails open: with its table full, an identity it does not track is allowed any number of calls. */
  lemma UnboundedIffOpen(c: Config)
    requires WellFormed(c)
    ensures c.failOpen <==>
              exists calls, k, t, from ::
                InOrder(calls, from) && AllowedIn(c, State(map[], 0), calls, k, t) > 2 * LimitOf(c, k.user)
  {
    if c.failOpen {
      OpenIsUnbounded(c, 2 * c.anonymous + 1);
    } else {
      forall calls, k: Key, t, from | InOrder(calls, from)
        ensures AllowedIn(c, State(map[], 0), calls, k, t) <= 2 * LimitOf(c, k.user)
      {
        RateBound(c, calls, k, t, from);
      }
    }
  }

  /** Failing open, any number of calls of one identity is allowed at one instant. */
  lemma OpenIsUnbounded(c: Config, n: nat)
    requires WellFormed(c) && c.failOpen
    ensures exists calls :: InOrder(calls, 0) && AllowedIn(c, State(map[], 0), calls, Key(false, "a"), 0) == n
  {
    var again := Repeat(Call("a", false, 0), n);
    RepeatInOrder(Call("a", false, 0), n);
    FillInOrder(0, c.maxEntries, again);
    FilledAllowsAll(c, State(map[], 0), 0, n);
    assert InOrder(FillThen(0, c.maxEntries, again), 0);
  }

  lemma {:induction false} RepeatInOrder(call: Call, n: nat)
    ensures InOrder(Repeat(call, n), call.now)
  {
    if n > 0 {
      RepeatInOrder(call, n - 1);
      assert Repeat(call, n)[1..] == Repeat(call, n - 1);
    }
  }
}
