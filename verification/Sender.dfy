/** The notification worker's sender fence as a step machine: one process, whose steps are the
    points where its asynchronous code resumes. A claim may return any number of rows, so the fence
    does not rest on the code's batch size of one; `OneRow` is what that size adds. */
module Sender {
  import opened Basics

  /** A claimed row; every claim gives its rows fresh lease tokens. */
  datatype Row = Row(revision: nat, lease: nat)

  /** Where the one running cycle is; `rows[0]` is the row in hand. */
  datatype Cycle =
    | Claiming
    | Allowing(rows: seq<Row>)
    | Sending(rows: seq<Row>, send: nat)
    | Grace(rows: seq<Row>, send: nat)
    | Finishing(rows: seq<Row>, success: bool)
    | Reporting

  datatype Loop = Off | Checking | Polling | Sleeping

  /** The worker's variables, with what the outside sees of it: sends not yet settled, the leases
      claimed, and the leases a send or a `finish` was issued for. */
  datatype Worker = Worker(cycle: Option<Cycle>, blocked: bool, active: Option<nat>, stopRequested: bool, loop: Loop,
                           inFlight: set<nat>, nextSend: nat, claimed: set<nat>, sent: seq<nat>, finished: seq<nat>)

  datatype Step =
    | PollOnce | Start | Stop
    | LoopTurn | LoopPolled | Wake
    | ClaimReturns(rows: seq<Row>) | AllowedReturns(allowed: bool) | FinishReturns | ReportReturns | QueryFails
    | Settles(send: nat, ok: bool) | Deadline | GraceExpires

  function Idle(): Worker {
    Worker(None, false, None, false, Off, {}, 0, {}, [], [])
  }

  function Leases(rows: seq<Row>): set<nat> { set r | r in rows :: r.lease }

  predicate DistinctLeases(rows: seq<Row>) {
    forall i, j :: 0 <= i < j < |rows| ==> rows[i].lease != rows[j].lease
  }

  function Poll(w: Worker): Worker {
    if w.cycle.None? && !w.blocked then w.(cycle := Some(Claiming)) else w
  }

  /** Issues `finish` for the row in hand. */
  function Finish(w: Worker, rows: seq<Row>, success: bool): Worker
    requires rows != []
  {
    w.(cycle := Some(Finishing(rows, success)), finished := w.finished + [rows[0].lease])
  }

  function Next(w: Worker, step: Step): Worker {
    match step
    case PollOnce => Poll(w)
    case Start => if w.loop.Off? then w.(stopRequested := false, loop := Checking) else w
    case Stop =>
      var s := w.(stopRequested := true, loop := if w.loop.Sleeping? then Checking else w.loop);
      if w.cycle.Some? && w.cycle.value.Sending? then s.(cycle := Some(Grace(w.cycle.value.rows, w.cycle.value.send)))
      else s
    case LoopTurn =>
      if !w.loop.Checking? then w else if w.stopRequested then w.(loop := Off) else Poll(w).(loop := Polling)
    case LoopPolled =>
      if w.loop.Polling? && w.cycle.None? then w.(loop := if w.stopRequested then Checking else Sleeping) else w
    case Wake => if w.loop.Sleeping? then w.(loop := Checking) else w
    case ClaimReturns(rows) =>
      if w.cycle != Some(Claiming) || !DistinctLeases(rows) || Leases(rows) * w.claimed != {} then w
      else w.(cycle := Some(if rows == [] then Reporting else Allowing(rows)), claimed := w.claimed + Leases(rows))
    case AllowedReturns(allowed) =>
      if w.cycle.None? || !w.cycle.value.Allowing? || w.cycle.value.rows == [] then w
      else
        var rows := w.cycle.value.rows;
        if !allowed then Finish(w, rows, false)
        else w.(cycle := Some(Sending(rows, w.nextSend)), active := Some(w.nextSend),
                inFlight := w.inFlight + {w.nextSend},
                nextSend := w.nextSend + 1, sent := w.sent + [rows[0].lease])
    case Settles(send, ok) =>
      if send !in w.inFlight then w
      else
        var s := w.(inFlight := w.inFlight - {send}, active := if w.active == Some(send) then None else w.active);
        if w.cycle.Some? && w.cycle.value.Sending? && w.cycle.value.send == send && w.cycle.value.rows != [] then
          Finish(s, w.cycle.value.rows, ok)
        else if w.cycle.Some? && w.cycle.value.Grace? && w.cycle.value.send == send && w.cycle.value.rows != [] then
          Finish(s, w.cycle.value.rows, false)
        else s
    case Deadline =>
      if w.cycle.Some? && w.cycle.value.Sending? then w.(cycle := Some(Grace(w.cycle.value.rows, w.cycle.value.send)))
      else w
    case GraceExpires =>
      if w.cycle.Some? && w.cycle.value.Grace? then w.(cycle := Some(Reporting), blocked := true) else w
    case FinishReturns =>
      if w.cycle.Some? && w.cycle.value.Finishing? && w.cycle.value.rows != [] then
        var rest := w.cycle.value.rows[1..];
        w.(cycle := Some(if rest == [] then Reporting else Allowing(rest)))
      else w
    case QueryFails =>
      if w.cycle.Some? && (w.cycle.value.Claiming? || w.cycle.value.Allowing? || w.cycle.value.Finishing?) then
        w.(cycle := Some(Reporting))
      else w
    case ReportReturns => if w.cycle == Some(Reporting) then w.(cycle := None) else w
  }

  function Run(w: Worker, steps: seq<Step>): Worker
    decreases |steps|
  {
    if steps == [] then w else Run(Next(w, steps[0]), steps[1..])
  }

  // ---- the invariant --------------------------------------------------------------------------------------

  predicate Distinct(s: seq<nat>) {
    forall i, j :: 0 <= i < j < |s| ==> s[i] != s[j]
  }

  /** Rows still to handle: claimed, distinct, and nothing issued for them yet. */
  predicate Untouched(w: Worker, rows: seq<Row>) {
    && DistinctLeases(rows)
    && forall r :: r in rows ==> r.lease in w.claimed && r.lease !in w.sent && r.lease !in w.finished
  }

  predicate CycleOk(w: Worker) {
    match w.cycle
    case None => true
    case Some(c) =>
      match c
      case Claiming => true
      case Allowing(rows) => rows != [] && Untouched(w, rows)
      case Sending(rows, send) => rows != [] && DistinctLeases(rows) && Untouched(w, rows[1..])
                                  && rows[0].lease in w.claimed && rows[0].lease !in w.finished && w.inFlight == {send}
      case Grace(rows, send) => rows != [] && DistinctLeases(rows) && Untouched(w, rows[1..])
                                && rows[0].lease in w.claimed && rows[0].lease !in w.finished && w.inFlight == {send}
      case Finishing(rows, _) => rows != [] && Untouched(w, rows[1..])
      case Reporting => true
  }

  predicate Transmitting(w: Worker) {
    w.cycle.Some? && (w.cycle.value.Sending? || w.cycle.value.Grace?)
  }

  predicate Inv(w: Worker) {
    && |w.inFlight| <= 1 && (forall id :: id in w.inFlight ==> id < w.nextSend)
    && (w.inFlight != {} && !Transmitting(w) ==> w.blocked)
    && (w.blocked ==> w.cycle.None? || w.cycle.value.Reporting?)
    && Distinct(w.sent) && Distinct(w.finished)
    && (forall l :: l in w.sent ==> l in w.claimed) && (forall l :: l in w.finished ==> l in w.claimed)
    && CycleOk(w)
  }

  lemma TailUntouched(w: Worker, rows: seq<Row>)
    requires Untouched(w, rows) && rows != []
    ensures Untouched(w, rows[1..]) && forall r :: r in rows[1..] ==> r.lease != rows[0].lease
  {
  }

  lemma HeadApart(rows: seq<Row>)
    requires rows != [] && DistinctLeases(rows)
    ensures DistinctLeases(rows[1..]) && forall r :: r in rows[1..] ==> r.lease != rows[0].lease
  {
  }

  lemma SettlesKeeps(w: Worker, send: nat, ok: bool)
    requires Inv(w)
    ensures Inv(Next(w, Settles(send, ok)))
  {
    if send in w.inFlight {
      assert |w.inFlight - {send}| == 0;
      if Transmitting(w) {
        HeadApart(w.cycle.value.rows);
      }
    }
  }

  lemma AllowedKeeps(w: Worker, allowed: bool)
    requires Inv(w)
    ensures Inv(Next(w, AllowedReturns(allowed)))
  {
    if w.cycle.Some? && w.cycle.value.Allowing? {
      var rows := w.cycle.value.rows;
      TailUntouched(w, rows);
      assert rows[0] in rows;
      assert w.inFlight == {};
    }
  }

  lemma ClaimKeeps(w: Worker, rows: seq<Row>)
    requires Inv(w)
    ensures Inv(Next(w, ClaimReturns(rows)))
  {
    forall r | r in rows && Leases(rows) * w.claimed == {}
      ensures r.lease in Leases(rows) && r.lease !in w.claimed
    {
      assert r.lease in w.claimed ==> r.lease in Leases(rows) * w.claimed;
    }
  }

  lemma FinishReturnsKeeps(w: Worker)
    requires Inv(w)
    ensures Inv(Next(w, FinishReturns))
  {
  }

  /** The other steps touch no row, no lease and no send. */
  lemma OtherKeeps(w: Worker, step: Step)
    requires Inv(w) && !step.Settles? && !step.AllowedReturns? && !step.ClaimReturns? && !step.FinishReturns?
    ensures Inv(Next(w, step))
  {
    var n := Next(w, step);
    assert n.claimed == w.claimed && n.sent == w.sent && n.finished == w.finished && n.inFlight == w.inFlight;
    assert forall rows :: Untouched(n, rows) <==> Untouched(w, rows);
    hide Untouched, DistinctLeases, Distinct, Leases;
  }

  lemma StepKeeps(w: Worker, step: Step)
    requires Inv(w)
    ensures Inv(Next(w, step))
  {
    hide Inv, Next;
    match step {
      case Settles(send, ok) => SettlesKeeps(w, send, ok);
      case AllowedReturns(allowed) => AllowedKeeps(w, allowed);
      case ClaimReturns(rows) => ClaimKeeps(w, rows);
      case FinishReturns => FinishReturnsKeeps(w);
      case _ => OtherKeeps(w, step);
    }
  }

  /** A send starts only when none is in flight and the sender is not blocked; `finish` is issued
      only when no send is in flight. */
  lemma FenceHolds(w: Worker, step: Step)
    requires Inv(w)
    ensures Next(w, step).sent != w.sent ==> w.inFlight == {} && !w.blocked && |Next(w, step).sent| == |w.sent| + 1
    ensures Next(w, step).finished != w.finished ==> Next(w, step).inFlight == {}
    ensures w.blocked ==> Next(w, step).blocked
  {
    hide Untouched, DistinctLeases, Distinct, Leases;
    if step.Settles? && step.send in w.inFlight {
      assert |w.inFlight - {step.send}| == 0;
    }
  }

  lemma {:induction false} RunKeeps(w: Worker, steps: seq<Step>)
    requires Inv(w)
    ensures Inv(Run(w, steps))
    decreases |steps|
  {
    if steps != [] {
      StepKeeps(w, steps[0]);
      RunKeeps(Next(w, steps[0]), steps[1..]);
    }
  }

  /** Over every interleaving: at most one send in flight, and for every claimed row at most one
      send started and at most one `finish` issued. */
  lemma OneSendAtATime(steps: seq<Step>)
    ensures var w := Run(Idle(), steps); |w.inFlight| <= 1 && Distinct(w.sent) && Distinct(w.finished)
  {
    RunKeeps(Idle(), steps);
  }

  /** Once blocked, the worker never sends again. */
  lemma {:induction false} BlockedNeverSends(w: Worker, steps: seq<Step>)
    requires Inv(w) && w.blocked
    ensures Run(w, steps).blocked && Run(w, steps).sent == w.sent
    decreases |steps|
  {
    if steps != [] {
      StepKeeps(w, steps[0]);
      FenceHolds(w, steps[0]);
      BlockedNeverSends(Next(w, steps[0]), steps[1..]);
    }
  }

  // ---- stopping ----------------------------------------------------------------------------------------------

  /** Nobody polls or starts the worker again. */
  predicate LeftAlone(steps: seq<Step>) {
    forall i :: 0 <= i < |steps| ==> !steps[i].PollOnce? && !steps[i].Start?
  }

  /** The running cycle has a claim or a row ahead of it that it can still send. */
  predicate MaySend(w: Worker) {
    w.cycle.Some? &&
    match w.cycle.value
    case Claiming => true
    case Allowing(_) => true
    case Sending(rows, _) => |rows| > 1
    case Grace(rows, _) => |rows| > 1
    case Finishing(rows, _) => |rows| > 1
    case Reporting => false
  }

  lemma {:induction false} StoppedSendsNothing(w: Worker, steps: seq<Step>)
    requires Inv(w) && w.stopRequested && LeftAlone(steps) && !MaySend(w)
    ensures Run(w, steps).sent == w.sent
    decreases |steps|
  {
    if steps != [] {
      StepKeeps(w, steps[0]);
      var n := Next(w, steps[0]);
      assert n.stopRequested && !MaySend(n) && n.sent == w.sent;
      forall i | 0 <= i < |steps[1..]|
        ensures !steps[1..][i].PollOnce? && !steps[1..][i].Start?
      {
        assert steps[1..][i] == steps[i + 1];
      }
      StoppedSendsNothing(n, steps[1..]);
    }
  }

  /** Steps that bring a stopped worker to its next send. */
  function ToNextSend(w: Worker, unused: nat): seq<Step> {
    if w.cycle.None? then []
    else match w.cycle.value
      case Claiming => [ClaimReturns([Row(0, unused)]), AllowedReturns(true)]
      case Allowing(_) => [AllowedReturns(true)]
      case Sending(_, id) => [Settles(id, true), FinishReturns, AllowedReturns(true)]
      case Grace(_, id) => [Settles(id, true), FinishReturns, AllowedReturns(true)]
      case Finishing(_, _) => [FinishReturns, AllowedReturns(true)]
      case Reporting => []
  }

  lemma RunUpTo3(w: Worker, a: Step, b: Step, c: Step)
    ensures Run(w, [a]) == Next(w, a)
    ensures Run(w, [a, b]) == Next(Next(w, a), b)
    ensures Run(w, [a, b, c]) == Next(Next(Next(w, a), b), c)
  {
    hide Next;
    assert [a][1..] == [] && [a, b][1..] == [b] && [b][1..] == [] && [a, b, c][1..] == [b, c] && [b, c][1..] == [c]
           && [c][1..] == [];
    assert Run(Next(w, a), [b]) == Next(Next(w, a), b);
    assert Run(Next(Next(w, a), b), [c]) == Next(Next(Next(w, a), b), c);
    assert Run(Next(w, a), [b, c]) == Run(Next(Next(w, a), b), [c]);
  }

  lemma AllowedSends(w: Worker)
    requires w.cycle.Some? && w.cycle.value.Allowing? && w.cycle.value.rows != []
    ensures |Next(w, AllowedReturns(true)).sent| == |w.sent| + 1
  {
  }

  /** From a row in hand, however far it is, to the next row. */
  lemma NextRow(w: Worker)
    requires w.cycle.Some? && w.cycle.value.Finishing? && |w.cycle.value.rows| > 1
    ensures var n := Next(w, FinishReturns);
      n.sent == w.sent && n.cycle.Some? && n.cycle.value.Allowing? && n.cycle.value.rows != []
  {
  }

  lemma Settled(w: Worker, id: nat)
    requires Inv(w) && Transmitting(w) && w.cycle.value.send == id && |w.cycle.value.rows| > 1
    ensures var n := Next(w, Settles(id, true));
      n.sent == w.sent && n.cycle.Some? && n.cycle.value.Finishing? && |n.cycle.value.rows| > 1
  {
  }

  lemma ClaimedOne(w: Worker, unused: nat)
    requires w.cycle == Some(Claiming) && unused !in w.claimed
    ensures var n := Next(w, ClaimReturns([Row(0, unused)]));
      n.sent == w.sent && n.cycle == Some(Allowing([Row(0, unused)]))
  {
  }

  lemma FinishedSends(w: Worker, id: nat)
    requires Inv(w) && Transmitting(w) && w.cycle.value.send == id && |w.cycle.value.rows| > 1
    ensures |Run(w, [Settles(id, true), FinishReturns, AllowedReturns(true)]).sent| == |w.sent| + 1
  {
    hide Next, Run, Inv;
    RunUpTo3(w, Settles(id, true), FinishReturns, AllowedReturns(true));
    Settled(w, id);
    NextRow(Next(w, Settles(id, true)));
    AllowedSends(Next(Next(w, Settles(id, true)), FinishReturns));
  }

  lemma NextSendReached(w: Worker, unused: nat)
    requires Inv(w) && MaySend(w) && unused !in w.claimed
    ensures |Run(w, ToNextSend(w, unused)).sent| == |w.sent| + 1
  {
    match w.cycle.value {
      case Claiming =>
        hide Next, Run, Inv;
        RunUpTo3(w, ClaimReturns([Row(0, unused)]), AllowedReturns(true), Stop);
        ClaimedOne(w, unused);
        AllowedSends(Next(w, ClaimReturns([Row(0, unused)])));
      case Allowing(_) =>
        RunUpTo3(w, AllowedReturns(true), Stop, Stop);
        hide Next, Run;
        AllowedSends(w);
      case Finishing(_, _) =>
        hide Next, Run, Inv;
        RunUpTo3(w, FinishReturns, AllowedReturns(true), Stop);
        NextRow(w);
        AllowedSends(Next(w, FinishReturns));
      case Sending(_, id) => FinishedSends(w, id);
      case Grace(_, id) => FinishedSends(w, id);
    }
  }

  /** `stop` aborts the send under way but does not recall a cycle: a stopped worker that nobody
      polls or starts sends again exactly when its cycle still has a claim or a row ahead. */
  lemma StoppedSendsIff(w: Worker)
    requires Inv(w) && w.stopRequested
    ensures (exists steps :: LeftAlone(steps) && Run(w, steps).sent != w.sent) <==> MaySend(w)
  {
    if MaySend(w) {
      var unused := Fresh(w.claimed);
      NextSendReached(w, unused);
      assert LeftAlone(ToNextSend(w, unused));
    } else {
      forall steps | LeftAlone(steps)
        ensures Run(w, steps).sent == w.sent
      {
        StoppedSendsNothing(w, steps);
      }
    }
  }

  // ---- one row at a time ---------------------------------------------------------------------------------------

  predicate OneRow(w: Worker) {
    w.cycle.Some? && !w.cycle.value.Claiming? && !w.cycle.value.Reporting? ==> |w.cycle.value.rows| <= 1
  }

  /** The batch size is one: no claim returns more than one row. */
  predicate SingleClaims(steps: seq<Step>) {
    forall i :: 0 <= i < |steps| ==> steps[i].ClaimReturns? ==> |steps[i].rows| <= 1
  }

  lemma {:induction false} RunOneRow(w: Worker, steps: seq<Step>)
    requires OneRow(w) && SingleClaims(steps)
    ensures OneRow(Run(w, steps))
    decreases |steps|
  {
    if steps != [] {
      assert steps[0].ClaimReturns? ==> |steps[0].rows| <= 1;
      assert OneRow(Next(w, steps[0]));
      forall i | 0 <= i < |steps[1..]|
        ensures steps[1..][i].ClaimReturns? ==> |steps[1..][i].rows| <= 1
      {
        assert steps[1..][i] == steps[i + 1];
      }
      hide Next, OneRow;
      RunOneRow(Next(w, steps[0]), steps[1..]);
    }
  }

  /** As configured, `stop` lets one more send through exactly when a claim has been issued whose row
      is not being sent yet. */
  lemma StoppedSendsOneIff(before: seq<Step>)
    requires SingleClaims(before) && Run(Idle(), before).stopRequested
    ensures var w := Run(Idle(), before);
      (exists steps :: LeftAlone(steps) && SingleClaims(steps) && Run(w, steps).sent != w.sent)
      <==> w.cycle.Some? && (w.cycle.value.Claiming? || w.cycle.value.Allowing?)
  {
    var w := Run(Idle(), before);
    RunKeeps(Idle(), before);
    RunOneRow(Idle(), before);
    if MaySend(w) {
      var unused := Fresh(w.claimed);
      NextSendReached(w, unused);
      assert LeftAlone(ToNextSend(w, unused)) && SingleClaims(ToNextSend(w, unused));
    } else {
      forall steps | LeftAlone(steps)
        ensures Run(w, steps).sent == w.sent
      {
        StoppedSendsNothing(w, steps);
      }
    }
  }

  /** A worker stopped while its first claim is out sends the row that the claim returns. */
  lemma StoppedThenSends()
    ensures var before, steps := [Start, LoopTurn, Stop], [ClaimReturns([Row(0, 0)]), AllowedReturns(true)];
      && SingleClaims(before) && Run(Idle(), before).stopRequested && Run(Idle(), before).sent == []
      && LeftAlone(steps) && SingleClaims(steps) && Run(Run(Idle(), before), steps).sent == [0]
  {
    RunUpTo3(Idle(), Start, LoopTurn, Stop);
    var w := Run(Idle(), [Start, LoopTurn, Stop]);
    RunUpTo3(w, ClaimReturns([Row(0, 0)]), AllowedReturns(true), Stop);
    ClaimedOne(w, 0);
  }

  lemma {:induction false} Fresh(used: set<nat>) returns (n: nat)
    ensures n !in used
    ensures forall m :: m in used ==> m < n
  {
    if used == {} {
      n := 0;
    } else {
      var m :| m in used;
      var k := Fresh(used - {m});
      assert forall x :: x in used <==> x == m || x in used - {m};
      n := if m < k then k else m + 1;
    }
  }
}
