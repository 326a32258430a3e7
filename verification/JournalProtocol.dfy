/** The deletion worker's write-ahead protocol as a step machine: any number of workers, each step
    of inspect, claim, lock, write, save, advance and commit on its own, and a failure, a lost
    database session, a process crash or a power loss between any two of them. */
module JournalProtocol {
  import opened Basics
  import opened Journal

  /** Where a worker is; it reads the two copies in either order. `file` is the frame it is appending. */
  datatype Phase =
    | Idle
    | Begun | SawFirst(seen: Checkpoint) | SawSecond(seen: Checkpoint) | SawBoth(seen: Checkpoint) | Inspected | Claimed
    | Locking(count: nat) | ScannedFirst(seen: Checkpoint) | ScannedSecond(seen: Checkpoint)
    | ScannedBoth(seen: Checkpoint)
    | Verified(file: File)
    | LinkedFirst(file: File) | WroteFirst(file: File) | LinkedSecond(file: File) | WroteSecond(file: File)
    | Renamed(file: File) | Releasing(file: File, count: nat)
    | Advanced(file: File)

  /** `live` says its database transaction, and with it the row lock, still stands. */
  datatype Worker = Worker(phase: Phase, expected: Checkpoint, live: bool, intent: Intent)

  /** The two copies, the saved checkpoint and its previous value, what is written but not yet
      synced, the append locks in their order, and the database: its checkpoint, the committed
      denials and the holder of the checkpoint row. */
  datatype Machine = Machine(journal: nat, a: seq<File>, b: seq<File>, saved: Checkpoint, prior: Checkpoint,
                             dirtyA: bool, dirtyB: bool, dirtySaved: bool, locks: set<nat>,
                             db: Checkpoint, denied: set<Intent>, row: Option<nat>, workers: map<nat, Worker>)

  datatype Step =
    | Begin(w: nat) | ReadFirst(w: nat) | ReadSecond(w: nat) | ReadSaved(w: nat) | Claim(w: nat, intent: Intent)
    | NoJob(w: nat)
    | StartAppend(w: nat) | Lock(w: nat) | ScanFirst(w: nat) | ScanSecond(w: nat)
    | Verify(w: nat, length: nat, nonce: nat)
    | LinkFirst(w: nat) | SyncFirst(w: nat) | LinkSecond(w: nat) | SyncSecond(w: nat) | Rename(w: nat)
    | SyncSaved(w: nat)
    | Unlock(w: nat) | Advance(w: nat) | Commit(w: nat)
    | Fail(w: nat) | LoseSession(w: nat) | Crash(w: nat)
    | PowerLoss(dropA: bool, dropB: bool, dropSaved: bool, kept: set<nat>)

  function Nobody(): Worker { Worker(Idle, Checkpoint(0, 0, Genesis(0)), false, Intent(0, 0, 0)) }

  function At(s: Machine, w: nat): Worker {
    if w in s.workers then s.workers[w] else Nobody()
  }

  function Put(s: Machine, w: nat, k: Worker): Machine { s.(workers := s.workers[w := k]) }

  function Move(s: Machine, w: nat, p: Phase): Machine { Put(s, w, At(s, w).(phase := p)) }

  /** How many of the three locks a worker at `p` holds; they are taken in one order. */
  function Held(p: Phase): nat {
    match p
    case Locking(n) => n
    case ScannedFirst(_) | ScannedSecond(_) | ScannedBoth(_) | Verified(_) | LinkedFirst(_) | WroteFirst(_)
       | LinkedSecond(_) | WroteSecond(_) | Renamed(_) => 3
    case Releasing(_, n) => n
    case _ => 0
  }

  function LocksOf(p: Phase): set<nat> {
    (if Held(p) > 0 then {0} else {}) + (if Held(p) > 1 then {1} else {}) + (if Held(p) > 2 then {2} else {})
  }

  function FreeRow(s: Machine, w: nat): Option<nat> { if s.row == Some(w) then None else s.row }

  function Dropped(frames: seq<File>, drop: bool): seq<File> {
    if drop && frames != [] then frames[..|frames| - 1] else frames
  }

  function NextCheckpoint(s: Machine, file: File): Checkpoint {
    Checkpoint(s.journal, At0(file), Sha(file))
  }

  function At0(file: File): nat { if file.body.Frame? then file.body.sequence else 0 }

  /** One step; a step that is not enabled changes nothing. */
  function Next(s: Machine, step: Step): Machine {
    match step
    case Begin(w) =>
      if At(s, w).phase.Idle? && s.row.None? then Put(s, w, Worker(Begun, s.db, true, Intent(0, 0, 0))).(row := Some(w))
      else s
    case ReadFirst(w) =>
      var p := At(s, w).phase;
      if p.Begun? then Move(s, w, SawFirst(CheckpointOf(s.journal, s.a)))
      else if p.SawSecond? && CheckpointOf(s.journal, s.a) == p.seen then Move(s, w, SawBoth(p.seen)) else s
    case ReadSecond(w) =>
      var p := At(s, w).phase;
      if p.Begun? then Move(s, w, SawSecond(CheckpointOf(s.journal, s.b)))
      else if p.SawFirst? && CheckpointOf(s.journal, s.b) == p.seen then Move(s, w, SawBoth(p.seen)) else s
    case ReadSaved(w) =>
      var k := At(s, w);
      if k.phase.SawBoth? && s.saved == k.phase.seen == k.expected then Move(s, w, Inspected) else s
    case Claim(w, intent) =>
      var k := At(s, w);
      if k.phase.Inspected? && k.live then Put(s, w, k.(phase := Claimed, intent := intent)) else s
    case NoJob(w) =>
      if At(s, w).phase.Inspected? then Move(s, w, Idle).(row := FreeRow(s, w)) else s
    case StartAppend(w) =>
      if At(s, w).phase.Claimed? then Move(s, w, Locking(0)) else s
    case Lock(w) =>
      var k := At(s, w);
      if k.phase.Locking? && k.phase.count < 3 && k.phase.count !in s.locks then
        Move(s, w, Locking(k.phase.count + 1)).(locks := s.locks + {k.phase.count})
      else s
    case ScanFirst(w) =>
      var p := At(s, w).phase;
      if p == Locking(3) then Move(s, w, ScannedFirst(CheckpointOf(s.journal, s.a)))
      else if p.ScannedSecond? && CheckpointOf(s.journal, s.a) == p.seen then Move(s, w, ScannedBoth(p.seen)) else s
    case ScanSecond(w) =>
      var p := At(s, w).phase;
      if p == Locking(3) then Move(s, w, ScannedSecond(CheckpointOf(s.journal, s.b)))
      else if p.ScannedFirst? && CheckpointOf(s.journal, s.b) == p.seen then Move(s, w, ScannedBoth(p.seen)) else s
    case Verify(w, length, nonce) =>
      var k := At(s, w);
      if k.phase.ScannedBoth? && s.saved == k.phase.seen == k.expected && |s.a| < MAX_RECORDS
          && 0 < length <= MAX_CIPHERTEXT
         && Bytes(s.a) + FrameSize(|s.a| + 1, length) <= MAX_BYTES
      then Move(s, w, Verified(NewFile(k.expected, Cipher(k.intent, length, nonce)))) else s
    case LinkFirst(w) =>
      var p := At(s, w).phase;
      if p.Verified? then Move(s, w, LinkedFirst(p.file)).(a := s.a + [p.file], dirtyA := true) else s
    case SyncFirst(w) =>
      var p := At(s, w).phase;
      if p.LinkedFirst? then Move(s, w, WroteFirst(p.file)).(dirtyA := false) else s
    case LinkSecond(w) =>
      var p := At(s, w).phase;
      if p.WroteFirst? then Move(s, w, LinkedSecond(p.file)).(b := s.b + [p.file], dirtyB := true) else s
    case SyncSecond(w) =>
      var p := At(s, w).phase;
      if p.LinkedSecond? then Move(s, w, WroteSecond(p.file)).(dirtyB := false) else s
    case Rename(w) =>
      var p := At(s, w).phase;
      if p.WroteSecond? then
        Move(s, w, Renamed(p.file)).(saved := NextCheckpoint(s, p.file), prior := s.saved, dirtySaved := true)
      else s
    case SyncSaved(w) =>
      var p := At(s, w).phase;
      if p.Renamed? then Move(s, w, Releasing(p.file, 3)).(dirtySaved := false) else s
    case Unlock(w) =>
      var p := At(s, w).phase;
      if p.Releasing? && 0 < p.count <= 3 then
        Move(s, w, Releasing(p.file, p.count - 1)).(locks := s.locks - {p.count - 1})
      else s
    case Advance(w) =>
      var k := At(s, w);
      if k.phase.Releasing? && k.phase.count == 0 && k.live
          && s.db == k.expected then Move(s, w, Advanced(k.phase.file)) else s
    case Commit(w) =>
      var k := At(s, w);
      if k.phase.Advanced? && k.live then
        Move(s, w, Idle).(row := FreeRow(s, w), db := NextCheckpoint(s, k.phase.file), denied := s.denied + {k.intent})
      else s
    case Fail(w) =>
      Move(s, w, Idle).(row := FreeRow(s, w), locks := s.locks - LocksOf(At(s, w).phase))
    case LoseSession(w) =>
      Put(s, w, At(s, w).(live := false)).(row := FreeRow(s, w))
    case Crash(w) =>
      Move(s, w, Idle).(row := FreeRow(s, w))
    case PowerLoss(dropA, dropB, dropSaved, kept) =>
      s.(workers := map[], row := None, locks := s.locks * kept,
         a := Dropped(s.a, dropA && s.dirtyA), b := Dropped(s.b, dropB && s.dirtyB),
         saved := if dropSaved && s.dirtySaved then s.prior else s.saved,
         dirtyA := false, dirtyB := false, dirtySaved := false)
  }

  function Run(s: Machine, steps: seq<Step>): Machine
    decreases |steps|
  {
    if steps == [] then s else Run(Next(s, steps[0]), steps[1..])
  }

  /** A journal as `initializeJournal` leaves it, and a database that knows it. */
  function Start(journal: nat): Machine {
    var c := CheckpointOf(journal, []);
    Machine(journal, [], [], c, c, false, false, false, {}, c, {}, None, map[])
  }

  // ---- the invariant --------------------------------------------------------------------------------

  function Denials(frames: seq<File>): set<Intent> {
    set f | f in frames && f.body.Frame? :: f.body.cipher.intent
  }

  /** The checkpoint of the first `n` frames of copy A. */
  function Upto(s: Machine, n: nat): Checkpoint
    requires n <= |s.a|
  {
    CheckpointOf(s.journal, s.a[..n])
  }

  /** One history: the database, the saved checkpoint and copy B all stand in copy A, in this
      order, and none is more than a frame behind it. */
  predicate History(s: Machine) {
    && Chained(s.journal, s.a)
    && s.db.sequence <= s.saved.sequence <= |s.b| <= |s.a| <= s.db.sequence + 1
    && s.b == s.a[..|s.b|]
    && s.saved == Upto(s, s.saved.sequence) && s.db == Upto(s, s.db.sequence)
    && s.denied == Denials(s.a[..s.db.sequence])
  }

  predicate Unsynced(s: Machine) {
    && (s.dirtyA ==> |s.b| < |s.a|)
    && (s.dirtyB ==> s.saved.sequence < |s.b|)
    && (s.dirtySaved ==> s.db.sequence < s.saved.sequence && s.prior == s.db)
  }

  /** The frame a worker past verification is appending. */
  function Pending(p: Phase): Option<File> {
    match p
    case LinkedFirst(f) => Some(f)
    case WroteFirst(f) => Some(f)
    case LinkedSecond(f) => Some(f)
    case WroteSecond(f) => Some(f)
    case Renamed(f) => Some(f)
    case Releasing(f, _) => Some(f)
    case Advanced(f) => Some(f)
    case _ => None
  }

  /** How far the writes of a pending frame have got: copy B, then the saved checkpoint. */
  predicate WroteB(p: Phase) { p.LinkedSecond? || p.WroteSecond? || p.Renamed? || p.Releasing? || p.Advanced? }

  predicate WroteSaved(p: Phase) { p.Renamed? || p.Releasing? || p.Advanced? }

  predicate PhaseOk(s: Machine, k: Worker) {
    && (k.phase.ScannedFirst? ==> k.phase.seen == CheckpointOf(s.journal, s.a))
    && (k.phase.ScannedSecond? ==> k.phase.seen == CheckpointOf(s.journal, s.b))
    && (k.phase.ScannedBoth? ==> k.phase.seen == CheckpointOf(s.journal, s.a) && s.b == s.a)
    && (k.phase.Verified? ==>
          && |s.a| == s.db.sequence && k.expected == s.db
          && NextFrame(s, k, k.phase.file))
    && (Pending(k.phase).Some? ==>
          var file := Pending(k.phase).value;
          && |s.a| == s.db.sequence + 1 && k.expected == s.db && s.a[s.db.sequence] == file
          && NextFrame(s, k, file)
          && (|s.b| == |s.a| <==> WroteB(k.phase)) && (s.saved.sequence == |s.a| <==> WroteSaved(k.phase))
          && (k.phase.WroteFirst? ==> !s.dirtyA) && (k.phase.WroteSecond? ==> !s.dirtyB)
          && (k.phase.Releasing? || k.phase.Advanced? ==> !s.dirtySaved))
  }

  predicate NextFrame(s: Machine, k: Worker, file: File) {
    && file.size <= MAX_FILE && file.body.Frame? && file.body.journal == s.journal && file.body.sequence
       == s.db.sequence + 1
    && file.body.previous == s.db.head && file.body.cipher.length > 0 && file.body.cipher.intent == k.intent
  }

  predicate WorkerOk(s: Machine, w: nat) {
    var k := At(s, w);
    !k.phase.Idle? ==>
      && k.expected.sequence <= s.db.sequence <= |s.a| && k.expected == Upto(s, k.expected.sequence)
      && (k.live ==> s.row == Some(w) && k.expected == s.db)
      && Held(k.phase) <= 3 && LocksOf(k.phase) <= s.locks
      && PhaseOk(s, k)
  }

  /** The first lock has one holder, and one worker at most has a frame pending. */
  ghost predicate Exclusive(s: Machine) {
    && (forall w, v :: w != v ==> !(Held(At(s, w).phase) > 0 && Held(At(s, v).phase) > 0))
    && (forall w, v :: w != v ==> !(Pending(At(s, w).phase).Some? && Pending(At(s, v).phase).Some?))
  }

  ghost predicate Inv(s: Machine) {
    && History(s) && Unsynced(s) && Exclusive(s)
    && (forall w :: WorkerOk(s, w))
    && (forall w :: s.row == Some(w) ==> !At(s, w).phase.Idle? && At(s, w).live)
  }

  // ---- what each step keeps ---------------------------------------------------------------------------

  /** A worker that only moves on, taking no lock and starting no frame. */
  lemma MoveKeeps(s: Machine, w: nat, k: Worker)
    requires Inv(s) && WorkerOk(Put(s, w, k), w)
    requires Held(k.phase) > 0 ==> Held(At(s, w).phase) > 0
    requires Pending(k.phase).Some? ==> Pending(At(s, w).phase).Some?
    requires s.row == Some(w) ==> !k.phase.Idle? && k.live
    ensures Inv(Put(s, w, k))
  {
    var t := Put(s, w, k);
    assert History(t) && Unsynced(t);
    forall v | v != w
      ensures WorkerOk(t, v) && At(t, v) == At(s, v)
    {
      assert WorkerOk(s, v);
    }
  }

  /** Equal checkpoints of the two copies mean equal copies. */
  lemma SameCopies(s: Machine)
    requires History(s) && CheckpointOf(s.journal, s.b) == CheckpointOf(s.journal, s.a)
    ensures s.b == s.a
  {
  }

  /** A worker that verified against the checkpoint it read at the start verified against the
      database's own: nothing was committed in between, and nothing is pending. */
  lemma VerifiedIsCurrent(s: Machine, w: nat)
    requires Inv(s) && !At(s, w).phase.Idle? && At(s, w).expected == CheckpointOf(s.journal, s.a)
    ensures At(s, w).expected == s.db && |s.a| == s.db.sequence && s.b == s.a && s.saved == s.db
  {
    assert WorkerOk(s, w);
    assert s.a[..|s.a|] == s.a;
  }

  lemma VerifyKeeps(s: Machine, w: nat, length: nat, nonce: nat)
    requires Inv(s)
    ensures Inv(Next(s, Verify(w, length, nonce)))
  {
    var k := At(s, w);
    if Next(s, Verify(w, length, nonce)) != s {
      assert WorkerOk(s, w);
      VerifiedIsCurrent(s, w);
      FrameFits(|s.a| + 1, length);
      MoveKeeps(s, w, k.(phase := Verified(NewFile(k.expected, Cipher(k.intent, length, nonce)))));
    }
  }

  /** A step that changes only the locks, and its own worker's hold on them. */
  lemma LockChangeKeeps(s: Machine, t: Machine, w: nat)
    requires Inv(s) && t == s.(workers := t.workers, locks := t.locks) && forall v :: v != w ==> At(t, v) == At(s, v)
    requires At(t, w) == At(s, w).(phase := At(t, w).phase) && !At(s, w).phase.Idle? && !At(t, w).phase.Idle?
    requires WorkerOk(t, w) && Exclusive(t)
    requires forall v :: v != w ==> LocksOf(At(s, v).phase) <= t.locks
    ensures Inv(t)
  {
    assert History(t) && Unsynced(t);
    hide LocksOf, PhaseOk, History, Unsynced, Exclusive;
    forall v | v != w
      ensures WorkerOk(t, v)
    {
      assert WorkerOk(s, v);
      OtherLocks(s, t, v);
    }
  }

  /** What a worker depends on besides its locks. */
  lemma OtherLocks(s: Machine, t: Machine, v: nat)
    requires t == s.(workers := t.workers, locks := t.locks) && WorkerOk(s, v) && At(t, v) == At(s, v)
             && LocksOf(At(s, v).phase) <= t.locks
    ensures WorkerOk(t, v)
  {
  }

  lemma LockKeeps(s: Machine, w: nat)
    requires Inv(s)
    ensures Inv(Next(s, Lock(w)))
  {
    var k, t := At(s, w), Next(s, Lock(w));
    if t != s {
      assert WorkerOk(s, w);
      LockExclusive(s, w);
      assert WorkerOk(t, w);
      forall v | v != w
        ensures LocksOf(At(s, v).phase) <= t.locks
      {
        assert WorkerOk(s, v);
      }
      hide WorkerOk, Exclusive, LocksOf;
      LockChangeKeeps(s, t, w);
    }
  }

  /** The first lock is free to take only while nobody holds it. */
  lemma LockExclusive(s: Machine, w: nat)
    requires Inv(s) && Next(s, Lock(w)) != s
    ensures Exclusive(Next(s, Lock(w)))
  {
    var k, t := At(s, w), Next(s, Lock(w));
    hide History, Unsynced, PhaseOk;
    forall v | v != w
      ensures At(t, v) == At(s, v) && (Held(At(s, v).phase) > 0 ==> Held(k.phase) > 0)
    {
      assert WorkerOk(s, v);
      assert Held(At(s, v).phase) > 0 ==> 0 in LocksOf(At(s, v).phase);
    }
  }

  lemma UnlockKeeps(s: Machine, w: nat)
    requires Inv(s)
    ensures Inv(Next(s, Unlock(w)))
  {
    var t := Next(s, Unlock(w));
    if t != s {
      UnlockedOwn(s, w);
      forall v | v != w
        ensures LocksOf(At(s, v).phase) <= t.locks
      {
        OthersOutside(s, w, v);
      }
      hide WorkerOk, LocksOf;
      StillExclusive(s, t, w);
      LockChangeKeeps(s, t, w);
    }
  }

  lemma UnlockedOwn(s: Machine, w: nat)
    requires Inv(s) && Next(s, Unlock(w)) != s
    ensures WorkerOk(Next(s, Unlock(w)), w) && Held(At(s, w).phase) > 0
  {
    hide Chained, History, Unsynced, Exclusive, CheckpointOf;
    assert WorkerOk(s, w);
  }

  /** A worker that takes no new lock and starts no new frame excludes the others as before. */
  lemma StillExclusive(s: Machine, t: Machine, w: nat)
    requires Exclusive(s) && forall v :: v != w ==> At(t, v) == At(s, v)
    requires Held(At(t, w).phase) > 0 ==> Held(At(s, w).phase) > 0
    requires Pending(At(t, w).phase).Some? ==> Pending(At(s, w).phase).Some?
    ensures Exclusive(t)
  {
  }

  /** While `w` holds the first lock, no other worker scans or writes. */
  lemma OthersOutside(s: Machine, w: nat, v: nat)
    requires Inv(s) && v != w && Held(At(s, w).phase) > 0
    ensures Held(At(s, v).phase) == 0
  {
  }

  /** While `w` verifies and writes, no other worker has a frame pending. */
  lemma OthersNotPending(s: Machine, w: nat, v: nat)
    requires Inv(s) && v != w && (At(s, w).phase.Verified? || Pending(At(s, w).phase).Some?)
    ensures Pending(At(s, v).phase).None?
  {
    assert WorkerOk(s, w) && WorkerOk(s, v);
  }

  /** Such a worker depends on nothing that a write step changes. */
  lemma OtherKept(s: Machine, t: Machine, v: nat)
    requires WorkerOk(s, v) && At(t, v) == At(s, v) && Held(At(s, v).phase) == 0 && Pending(At(s, v).phase).None?
    requires t.journal == s.journal && t.db == s.db && t.row == s.row && t.locks == s.locks
    requires s.db.sequence <= |s.a| <= |t.a| && forall n :: 0 <= n <= |s.a| ==> t.a[..n] == s.a[..n]
    ensures WorkerOk(t, v)
  {
  }

  lemma LinkedHistory(s: Machine, w: nat)
    requires Inv(s) && At(s, w).phase.Verified?
    ensures var t := Next(s, LinkFirst(w));
      History(t) && Unsynced(t) && WorkerOk(t, w) && t.a[..|s.a|] == s.a && forall n :: 0 <= n <= |s.a| ==>
          t.a[..n] == s.a[..n]
  {
    assert WorkerOk(s, w);
    FrameAppended(s, At(s, w), At(s, w).phase.file);
    hide History, Unsynced, Chained, NextFrame, Upto, CheckpointOf, Denials;
    var t := Next(s, LinkFirst(w));
    assert t == Put(s, w, At(s, w).(phase := LinkedFirst(At(s, w).phase.file))).(a := s.a + [At(s, w).phase.file],
        dirtyA := true);
    LinkedOwn(s, t, w);
    SameHistory(s.(a := s.a + [At(s, w).phase.file], dirtyA := true), t);
  }

  /** The history with one more frame at copy A. */
  lemma FrameAppended(s: Machine, k: Worker, file: File)
    requires History(s) && Unsynced(s) && |s.a| == s.db.sequence && NextFrame(s, k, file)
    ensures var t := s.(a := s.a + [file], dirtyA := true);
      History(t) && Unsynced(t) && t.a[..|s.a|] == s.a && forall n :: 0 <= n <= |s.a| ==> t.a[..n] == s.a[..n]
  {
    var t := s.(a := s.a + [file], dirtyA := true);
    assert s.a[..|s.a|] == s.a;
    ChainExtends(s.journal, s.a, file);
    assert forall n :: 0 <= n <= |s.a| ==> t.a[..n] == s.a[..n];
  }

  lemma SameHistory(s: Machine, t: Machine)
    requires History(s) && Unsynced(s) && t == s.(workers := t.workers)
    ensures History(t) && Unsynced(t)
  {
  }

  lemma LinkedOwn(s: Machine, t: Machine, w: nat)
    requires History(s) && WorkerOk(s, w) && At(s, w).phase.Verified?
    requires t == Put(s, w, At(s, w).(phase := LinkedFirst(At(s, w).phase.file))).(a := s.a + [At(s, w).phase.file],
        dirtyA := true)
    ensures WorkerOk(t, w)
  {
  }

  lemma LinkFirstKeeps(s: Machine, w: nat)
    requires Inv(s)
    ensures Inv(Next(s, LinkFirst(w)))
  {
    if Next(s, LinkFirst(w)) != s {
      LinkedHistory(s, w);
      WriteStepKeeps(s, Next(s, LinkFirst(w)), w);
    }
  }

  lemma SizeOrder(s: Machine)
    requires Inv(s)
    ensures s.db.sequence <= |s.a|
  {
  }

  lemma LinkedSecondOwn(s: Machine, t: Machine, w: nat)
    requires Inv(s) && At(s, w).phase.WroteFirst?
    requires var file := At(s, w).phase.file; t == Move(s, w, LinkedSecond(file)).(b := s.b + [file], dirtyB := true)
    ensures History(t) && Unsynced(t) && WorkerOk(t, w)
  {
    hide Chained, CheckpointOf, Exclusive, Denials;
    assert WorkerOk(s, w);
    assert s.b + [At(s, w).phase.file] == s.a == s.a[..|s.a|];
  }

  lemma LinkSecondKeeps(s: Machine, w: nat)
    requires Inv(s)
    ensures Inv(Next(s, LinkSecond(w)))
  {
    if Next(s, LinkSecond(w)) != s {
      LinkedSecondOwn(s, Next(s, LinkSecond(w)), w);
      WriteStepKeeps(s, Next(s, LinkSecond(w)), w);
    }
  }

  lemma RenamedOwn(s: Machine, t: Machine, w: nat)
    requires Inv(s) && At(s, w).phase.WroteSecond?
    requires var file := At(s, w).phase.file;
      t == Move(s, w, Renamed(file)).(saved := NextCheckpoint(s, file), prior := s.saved, dirtySaved := true)
    ensures History(t) && Unsynced(t) && WorkerOk(t, w)
  {
    hide Chained, Exclusive, Denials;
    assert WorkerOk(s, w);
    assert s.a[..|s.a|] == s.a;
    assert NextCheckpoint(s, At(s, w).phase.file) == Upto(s, |s.a|);
  }

  lemma RenameKeeps(s: Machine, w: nat)
    requires Inv(s)
    ensures Inv(Next(s, Rename(w)))
  {
    if Next(s, Rename(w)) != s {
      RenamedOwn(s, Next(s, Rename(w)), w);
      WriteStepKeeps(s, Next(s, Rename(w)), w);
    }
  }

  lemma SyncedFirstOwn(s: Machine, t: Machine, w: nat)
    requires Inv(s) && At(s, w).phase.LinkedFirst?
    requires var file := At(s, w).phase.file; t == Move(s, w, WroteFirst(file)).(dirtyA := false)
    ensures History(t) && Unsynced(t) && WorkerOk(t, w)
  {
    hide Chained, CheckpointOf, Exclusive;
    assert WorkerOk(s, w);
  }

  lemma SyncedFirst(s: Machine, w: nat)
    requires Inv(s) && At(s, w).phase.LinkedFirst?
    ensures Inv(Next(s, SyncFirst(w)))
  {
    SyncedFirstOwn(s, Next(s, SyncFirst(w)), w);
    hide History, Unsynced, WorkerOk, Exclusive;
    WriteStepKeeps(s, Next(s, SyncFirst(w)), w);
  }

  lemma SyncedSecondOwn(s: Machine, t: Machine, w: nat)
    requires Inv(s) && At(s, w).phase.LinkedSecond?
    requires var file := At(s, w).phase.file; t == Move(s, w, WroteSecond(file)).(dirtyB := false)
    ensures History(t) && Unsynced(t) && WorkerOk(t, w)
  {
    hide Chained, CheckpointOf, Exclusive;
    assert WorkerOk(s, w);
  }

  lemma SyncedSecond(s: Machine, w: nat)
    requires Inv(s) && At(s, w).phase.LinkedSecond?
    ensures Inv(Next(s, SyncSecond(w)))
  {
    SyncedSecondOwn(s, Next(s, SyncSecond(w)), w);
    hide History, Unsynced, WorkerOk, Exclusive;
    WriteStepKeeps(s, Next(s, SyncSecond(w)), w);
  }

  lemma SyncedSavedOwn(s: Machine, t: Machine, w: nat)
    requires Inv(s) && At(s, w).phase.Renamed?
    requires var file := At(s, w).phase.file; t == Move(s, w, Releasing(file, 3)).(dirtySaved := false)
    ensures History(t) && Unsynced(t) && WorkerOk(t, w)
  {
    hide Chained, CheckpointOf, Exclusive;
    assert WorkerOk(s, w);
  }

  lemma SyncedSaved(s: Machine, w: nat)
    requires Inv(s) && At(s, w).phase.Renamed?
    ensures Inv(Next(s, SyncSaved(w)))
  {
    SyncedSavedOwn(s, Next(s, SyncSaved(w)), w);
    hide History, Unsynced, WorkerOk, Exclusive;
    WriteStepKeeps(s, Next(s, SyncSaved(w)), w);
  }

  /** A write step of the worker that holds the locks keeps the invariant once it keeps the history
      and the worker's own part. */
  lemma WriteStepKeeps(s: Machine, t: Machine, w: nat)
    requires Inv(s) && (At(s, w).phase.Verified? || Pending(At(s, w).phase).Some?) && Held(At(s, w).phase) > 0
    requires History(t) && Unsynced(t) && WorkerOk(t, w) && !At(t, w).phase.Idle? && At(t, w).live == At(s, w).live
    requires forall v :: v != w ==> At(t, v) == At(s, v)
    requires t.journal == s.journal && t.db == s.db && t.row == s.row && t.locks == s.locks
    requires |s.a| <= |t.a| && forall n :: 0 <= n <= |s.a| ==> t.a[..n] == s.a[..n]
    ensures Inv(t)
  {
    SizeOrder(s);
    hide History, Unsynced;
    forall v | v != w
      ensures WorkerOk(t, v) && Held(At(s, v).phase) == 0 && Pending(At(s, v).phase).None?
    {
      OthersOutside(s, w, v);
      OthersNotPending(s, w, v);
      OtherKept(s, t, v);
    }
  }

  lemma DenialsStep(frames: seq<File>, n: nat)
    requires n < |frames| && frames[n].body.Frame?
    ensures Denials(frames[..n + 1]) == Denials(frames[..n]) + {frames[n].body.cipher.intent}
  {
  }

  /** The database's checkpoint and denials, one frame on. */
  lemma CommittedHistory(s: Machine, t: Machine, w: nat)
    requires Inv(s) && At(s, w).phase.Advanced?
    requires var k := At(s, w);
      t == Move(s, w, Idle).(row := FreeRow(s, w), db := NextCheckpoint(s, k.phase.file),
        denied := s.denied + {k.intent})
    ensures History(t) && Unsynced(t) && t.db.sequence == |s.a|
  {
    assert WorkerOk(s, w);
    DenialsStep(s.a, s.db.sequence);
    assert t.db == Upto(s, |s.a|) by {
      assert s.a[..|s.a|] == s.a;
    }
  }

  /** Another worker has no session and no frame, and the copies are as they were. */
  lemma CommittedOther(s: Machine, t: Machine, w: nat, v: nat)
    requires Inv(s) && At(s, w).phase.Advanced? && At(s, w).live && v != w && At(t, v) == At(s, v)
    requires t.journal == s.journal && t.a == s.a && t.b == s.b && t.locks == s.locks && t.db.sequence == |s.a|
    ensures WorkerOk(t, v)
  {
    hide Chained, CheckpointOf, Denials, Unsynced;
    assert WorkerOk(s, w) && WorkerOk(s, v);
    OthersNotPending(s, w, v);
  }

  lemma CommitIs(s: Machine, w: nat)
    requires Next(s, Commit(w)) != s
    ensures var k := At(s, w);
      && k.phase.Advanced? && k.live
      && Next(s, Commit(w)) == Move(s, w, Idle).(row := FreeRow(s, w), db := NextCheckpoint(s, k.phase.file),
                                               denied := s.denied + {k.intent})
  {
  }

  lemma CommitKeeps(s: Machine, w: nat)
    requires Inv(s)
    ensures Inv(Next(s, Commit(w)))
  {
    var t := Next(s, Commit(w));
    if t != s {
      CommitIs(s, w);
      CommittedHistory(s, t, w);
      hide Next, History, Unsynced, NextCheckpoint, PhaseOk, Exclusive;
      assert WorkerOk(s, w);
      forall v
        ensures WorkerOk(t, v)
        ensures v != w ==> At(t, v) == At(s, v)
      {
        if v != w {
          CommittedOther(s, t, w, v);
        }
      }
      hide WorkerOk;
      StillExclusive(s, t, w);
    }
  }

  /** A worker that stops: nothing of the journal changes, and only its own locks can go. */
  lemma StopKeeps(s: Machine, w: nat, released: set<nat>)
    requires Inv(s) && (released == {} || released == LocksOf(At(s, w).phase))
    ensures Inv(Move(s, w, Idle).(row := FreeRow(s, w), locks := s.locks - released))
  {
    var t := Move(s, w, Idle).(row := FreeRow(s, w), locks := s.locks - released);
    hide Chained, CheckpointOf, Denials;
    assert History(t) && Unsynced(t);
    assert WorkerOk(s, w);
    forall v
      ensures WorkerOk(t, v)
      ensures v != w ==> At(t, v) == At(s, v)
    {
      assert WorkerOk(s, v);
      if v != w && Held(At(s, w).phase) > 0 {
        OthersOutside(s, w, v);
      }
    }
  }

  lemma SessionIs(s: Machine, w: nat)
    ensures Next(s, LoseSession(w)) == Put(s, w, At(s, w).(live := false)).(row := FreeRow(s, w))
  {
  }

  /** A worker without the session depends on nothing that its loss changes. */
  lemma SessionOf(s: Machine, t: Machine, w: nat, v: nat)
    requires WorkerOk(s, v) && t == Put(s, w, At(s, w).(live := false)).(row := FreeRow(s, w))
    ensures WorkerOk(t, v)
  {
    hide Chained, CheckpointOf;
  }

  lemma SessionKeeps(s: Machine, w: nat)
    requires Inv(s)
    ensures Inv(Next(s, LoseSession(w)))
  {
    var t := Next(s, LoseSession(w));
    SessionIs(s, w);
    hide Next, WorkerOk;
    assert History(t) && Unsynced(t);
    forall v
      ensures WorkerOk(t, v)
      ensures v != w ==> At(t, v) == At(s, v)
    {
      SessionOf(s, t, w, v);
    }
    hide History, Unsynced;
    StillExclusive(s, t, w);
  }

  lemma BeginIs(s: Machine, w: nat)
    requires Next(s, Begin(w)) != s
    ensures At(s, w).phase.Idle? && s.row.None?
    ensures Next(s, Begin(w)) == Put(s, w, Worker(Begun, s.db, true, Intent(0, 0, 0))).(row := Some(w))
  {
  }

  lemma BeginKeeps(s: Machine, w: nat)
    requires Inv(s)
    ensures Inv(Next(s, Begin(w)))
  {
    var t := Next(s, Begin(w));
    if t != s {
      BeginIs(s, w);
      hide Next;
      assert History(t) && Unsynced(t);
      forall v
        ensures WorkerOk(t, v)
        ensures v != w ==> At(t, v) == At(s, v)
      {
        assert WorkerOk(s, v);
      }
      hide History, Unsynced, WorkerOk;
      StillExclusive(s, t, w);
    }
  }

  /** Power loss drops what was not synced and every worker; one history remains. */
  lemma PowerLossKeeps(s: Machine, step: Step)
    requires Inv(s) && step.PowerLoss?
    ensures Inv(Next(s, step))
  {
    var t := Next(s, step);
    assert forall n :: 0 <= n <= |t.a| ==> t.a[..n] == s.a[..n];
    assert t.a == s.a[..|t.a|];
    ChainedPrefix(s.journal, s.a, |t.a|);
    assert forall n :: 0 <= n <= |t.b| ==> s.b[..n] == s.a[..n];
    assert History(t) && Unsynced(t);
  }

  lemma StepKeeps(s: Machine, step: Step)
    requires Inv(s)
    ensures Inv(Next(s, step))
  {
    hide Inv, History, Unsynced, Exclusive;
    match step {
      case Begin(w) => BeginKeeps(s, w);
      case Verify(w, length, nonce) => VerifyKeeps(s, w, length, nonce);
      case Lock(w) => LockKeeps(s, w);
      case Unlock(w) => UnlockKeeps(s, w);
      case LinkFirst(w) => LinkFirstKeeps(s, w);
      case LinkSecond(w) => LinkSecondKeeps(s, w);
      case Rename(w) => RenameKeeps(s, w);
      case SyncFirst(w) => if At(s, w).phase.LinkedFirst? { SyncedFirst(s, w); }
      case SyncSecond(w) => if At(s, w).phase.LinkedSecond? { SyncedSecond(s, w); }
      case SyncSaved(w) => if At(s, w).phase.Renamed? { SyncedSaved(s, w); }
      case Commit(w) => CommitKeeps(s, w);
      case Fail(w) => StopKeeps(s, w, LocksOf(At(s, w).phase));
      case Crash(w) =>
        assert s.locks - {} == s.locks;
        StopKeeps(s, w, {});
      case NoJob(w) =>
        assert s.locks - {} == s.locks;
        StopKeeps(s, w, {});
      case LoseSession(w) => SessionKeeps(s, w);
      case PowerLoss(_, _, _, _) => PowerLossKeeps(s, step);
      case _ => QuietKeeps(s, step);
    }
  }

  /** Steps that only read: they move one worker on. */
  predicate Quiet(step: Step) {
    step.ReadFirst? || step.ReadSecond? || step.ReadSaved? || step.Claim? || step.StartAppend?
    || step.ScanFirst? || step.ScanSecond? || step.Advance?
  }

  /** A step that moves one worker on, between the same locks and with the same frame. */
  predicate MovesOn(s: Machine, t: Machine, w: nat) {
    var k := At(t, w);
    && t == Put(s, w, k) && k.live == At(s, w).live && !k.phase.Idle? && k.expected == At(s, w).expected
    && Held(k.phase) == Held(At(s, w).phase) && Pending(k.phase) == Pending(At(s, w).phase)
  }

  lemma MovedOn(s: Machine, w: nat, p: Phase)
    requires !p.Idle? && Held(p) == Held(At(s, w).phase) && Pending(p) == Pending(At(s, w).phase)
    ensures MovesOn(s, Move(s, w, p), w)
  {
  }

  lemma ReadMoves(s: Machine, step: Step)
    requires step.ReadFirst? || step.ReadSecond? || step.ScanFirst? || step.ScanSecond?
    requires Next(s, step) != s
    ensures MovesOn(s, Next(s, step), step.w)
  {
    var w, p := step.w, At(s, step.w).phase;
    var a, b := CheckpointOf(s.journal, s.a), CheckpointOf(s.journal, s.b);
    hide MovesOn, CheckpointOf, Move;
    match step {
      case ReadFirst(_) => MovedOn(s, w, if p.Begun? then SawFirst(a) else SawBoth(p.seen));
      case ReadSecond(_) => MovedOn(s, w, if p.Begun? then SawSecond(b) else SawBoth(p.seen));
      case ScanFirst(_) => MovedOn(s, w, if p == Locking(3) then ScannedFirst(a) else ScannedBoth(p.seen));
      case ScanSecond(_) => MovedOn(s, w, if p == Locking(3) then ScannedSecond(b) else ScannedBoth(p.seen));
    }
  }

  lemma QuietMoves(s: Machine, step: Step)
    requires Quiet(step) && Next(s, step) != s
    ensures MovesOn(s, Next(s, step), step.w)
  {
    if step.ReadFirst? || step.ReadSecond? || step.ScanFirst? || step.ScanSecond? {
      hide Next, MovesOn;
      ReadMoves(s, step);
    }
  }

  /** Scanning finds what the copies hold. */
  lemma ScanOwn(s: Machine, w: nat, step: Step)
    requires Inv(s) && (step == ScanFirst(w) || step == ScanSecond(w)) && Next(s, step) != s
    ensures WorkerOk(Next(s, step), w)
  {
    hide Chained, NextFrame, CheckpointOf, Exclusive, Unsynced;
    QuietMoves(s, step);
    assert WorkerOk(s, w);
    if At(Next(s, step), w).phase.ScannedBoth? {
      SameCopies(s);
    }
  }

  lemma QuietOwn(s: Machine, w: nat, step: Step)
    requires Inv(s) && Quiet(step) && step.w == w && !step.ScanFirst? && !step.ScanSecond? && Next(s, step) != s
    ensures WorkerOk(Next(s, step), w)
  {
    hide Chained, CheckpointOf, Exclusive, Unsynced;
    QuietMoves(s, step);
    assert WorkerOk(s, w);
  }

  lemma QuietKeeps(s: Machine, step: Step)
    requires Inv(s) && Quiet(step)
    ensures Inv(Next(s, step))
  {
    var t, w := Next(s, step), step.w;
    if t != s {
      if step.ScanFirst? || step.ScanSecond? {
        ScanOwn(s, w, step);
      } else {
        QuietOwn(s, w, step);
      }
      QuietMoves(s, step);
      QuietLive(s, w);
      hide Next, Inv, WorkerOk;
      MoveKeeps(s, w, At(t, w));
    }
  }

  lemma QuietLive(s: Machine, w: nat)
    requires Inv(s)
    ensures s.row == Some(w) ==> At(s, w).live
  {
  }

  lemma {:induction false} RunKeeps(s: Machine, steps: seq<Step>)
    requires Inv(s)
    ensures Inv(Run(s, steps))
    decreases |steps|
  {
    if steps != [] {
      StepKeeps(s, steps[0]);
      RunKeeps(Next(s, steps[0]), steps[1..]);
    }
  }

  lemma StartInv(journal: nat)
    ensures Inv(Start(journal))
  {
  }

  // ---- what follows -------------------------------------------------------------------------------------

  /** Over every interleaving of steps, failures, crashes and power losses: the two copies are one
      history and differ by at most its last frame; the saved checkpoint is a checkpoint of both
      copies; the database is at the journal's sequence or one before it; and every committed
      denial stands in both copies. */
  lemma CrashSafe(journal: nat, steps: seq<Step>)
    ensures var s := Run(Start(journal), steps);
      && Chained(s.journal, s.a) && s.b <= s.a && |s.a| <= |s.b| + 1
      && s.saved.sequence <= |s.b| && s.saved == CheckpointOf(s.journal, s.b[..s.saved.sequence])
      && (s.db.sequence == |s.a| || s.db.sequence + 1 == |s.a|)
      && s.denied <= Denials(s.a) && s.denied <= Denials(s.b)
  {
    StartInv(journal);
    RunKeeps(Start(journal), steps);
    var s := Run(Start(journal), steps);
    assert s.b[..s.saved.sequence] == s.a[..s.saved.sequence];
    DenialsWithin(s.a, s.a, s.db.sequence);
    DenialsWithin(s.b, s.a, s.db.sequence);
  }

  lemma DenialsWithin(frames: seq<File>, all: seq<File>, n: nat)
    requires n <= |frames| <= |all| && frames == all[..|frames|]
    ensures Denials(all[..n]) <= Denials(frames)
  {
  }

  /** All four records agree exactly when the journal is not ahead of the database. */
  lemma AgreesUnlessAhead(s: Machine)
    requires Inv(s)
    ensures (s.b == s.a && s.saved == CheckpointOf(s.journal, s.a) && s.db == s.saved) <==> |s.a| == s.db.sequence
  {
  }

  /** The journal is ahead of the database, and no worker can still commit the frame. */
  ghost predicate Fenced(s: Machine) {
    && s.db.sequence < |s.a|
    && forall w :: At(s, w).live ==> Pending(At(s, w).phase).None?
  }

  /** Only the first link starts a frame. */
  lemma NoNewFrame(s: Machine, step: Step)
    requires !step.LinkFirst? && !step.PowerLoss?
    ensures var k, j := At(s, step.w), At(Next(s, step), step.w);
      Pending(j.phase).Some? && j.live ==> Pending(k.phase).Some? && k.live
  {
    hide NewFile, CheckpointOf, Bytes, FrameSize, NextCheckpoint, LocksOf, FreeRow;
  }

  lemma OneWorkerMoves(s: Machine, step: Step, v: nat)
    requires !step.PowerLoss? && v != step.w
    ensures At(Next(s, step), v) == At(s, v)
  {
    hide NewFile, CheckpointOf, Bytes, FrameSize, NextCheckpoint, LocksOf, FreeRow;
  }

  /** Only the first link and a commit change the record. */
  lemma RecordKept(s: Machine, step: Step)
    requires !step.LinkFirst? && !step.Commit? && !step.PowerLoss?
    ensures var t := Next(s, step); t.a == s.a && t.db == s.db && t.denied == s.denied && (t.dirtyA ==> s.dirtyA)
  {
    if Quiet(step) {
      if Next(s, step) != s {
        QuietMoves(s, step);
      }
    } else if Writes(step) {
      WritesKept(s, step);
    } else if step.Lock? || step.Unlock? {
      LocksKept(s, step);
    } else {
      OthersKept(s, step);
    }
  }

  predicate Writes(step: Step) {
    step.LinkSecond? || step.SyncFirst? || step.SyncSecond? || step.Rename? || step.SyncSaved?
  }

  /** Each of these steps moves one worker and touches at most copy B, the checkpoint and the flags. */
  lemma WritesKept(s: Machine, step: Step)
    requires Writes(step)
    ensures var t := Next(s, step); t.a == s.a && t.db == s.db && t.denied == s.denied && (t.dirtyA ==> s.dirtyA)
  {
    hide NextCheckpoint, At;
  }

  lemma LocksKept(s: Machine, step: Step)
    requires step.Lock? || step.Unlock?
    ensures var t := Next(s, step); t.a == s.a && t.db == s.db && t.denied == s.denied && (t.dirtyA ==> s.dirtyA)
  {
    hide At;
  }

  lemma OthersKept(s: Machine, step: Step)
    requires !step.LinkFirst? && !step.Commit? && !step.PowerLoss? && !Quiet(step) && !Writes(step)
             && !step.Lock? && !step.Unlock?
    ensures var t := Next(s, step); t.a == s.a && t.db == s.db && t.denied == s.denied && (t.dirtyA ==> s.dirtyA)
  {
  }

  /** A power loss that takes the frame ahead, whose directory entry was never synced. */
  predicate Loses(s: Machine, step: Step) { step.PowerLoss? && step.dropA && s.dirtyA }

  lemma FencedStep(s: Machine, step: Step)
    requires Inv(s) && Fenced(s) && !Loses(s, step)
    ensures var t := Next(s, step);
      Fenced(t) && t.a == s.a && t.db == s.db && t.denied == s.denied && (t.dirtyA ==> s.dirtyA)
  {
    var t := Next(s, step);
    if step.LinkFirst? || step.Commit? {
      assert WorkerOk(s, step.w);
      assert t == s;
    } else if !step.PowerLoss? {
      RecordKept(s, step);
      NoNewFrame(s, step);
      hide Next, Inv;
      forall v | At(t, v).live
        ensures Pending(At(t, v).phase).None?
      {
        if v != step.w {
          OneWorkerMoves(s, step, v);
        }
      }
    }
  }

  /** No power loss of the run takes the frame. */
  predicate FrameKept(s: Machine, steps: seq<Step>)
    decreases |steps|
  {
    steps == [] || (!Loses(s, steps[0]) && FrameKept(Next(s, steps[0]), steps[1..]))
  }

  /** After a mismatch no later append or commit succeeds: in every run from a fenced state that no
      power loss takes the frame of, the history, the database checkpoint and the committed denials
      stay as they are. */
  lemma {:induction false} FencedForever(s: Machine, steps: seq<Step>)
    requires Inv(s) && Fenced(s) && FrameKept(s, steps)
    ensures var t := Run(s, steps); Fenced(t) && t.a == s.a && t.db == s.db && t.denied == s.denied
    decreases |steps|
  {
    if steps != [] {
      StepKeeps(s, steps[0]);
      FencedStep(s, steps[0]);
      hide Inv, Fenced, Next;
      FencedForever(Next(s, steps[0]), steps[1..]);
    }
  }

  /** A frame that is synced stays. */
  lemma {:induction false} SyncedStays(s: Machine, steps: seq<Step>)
    requires Inv(s) && Fenced(s) && !s.dirtyA
    ensures FrameKept(s, steps)
    decreases |steps|
  {
    if steps != [] {
      StepKeeps(s, steps[0]);
      FencedStep(s, steps[0]);
      hide Inv, Fenced, Next;
      SyncedStays(Next(s, steps[0]), steps[1..]);
    }
  }

  lemma LostAt(s: Machine, w: nat, step: Step, v: nat)
    requires step == LoseSession(w) || step == Fail(w) || step == Crash(w)
    ensures var t := Next(s, step);
      && t.a == s.a && t.db == s.db && t.dirtyA == s.dirtyA
      && (v != w ==> At(t, v) == At(s, v)) && (At(t, w).live ==> At(t, w).phase.Idle?)
  {
    hide LocksOf, FreeRow;
  }

  /** A worker that loses its session, fails or crashes with its frame written fences the journal,
      from the first link on. */
  lemma LostFrameFences(s: Machine, w: nat, step: Step)
    requires Inv(s) && Pending(At(s, w).phase).Some?
    requires step == LoseSession(w) || step == Fail(w) || step == Crash(w)
    ensures Fenced(Next(s, step)) && Next(s, step).dirtyA == s.dirtyA
  {
    assert WorkerOk(s, w);
    assert s.db.sequence < |s.a|;
    LostAt(s, w, step, w);
    hide Next, WorkerOk;
    forall v | At(Next(s, step), v).live
      ensures Pending(At(Next(s, step), v).phase).None?
    {
      LostAt(s, w, step, v);
    }
  }

  /** Nobody is appending, and the journal has room for one more frame of this length. */
  predicate Ready(s: Machine, w: nat, length: nat) {
    && |s.a| == s.db.sequence && s.row.None? && s.locks == {} && At(s, w).phase.Idle?
    && 0 < length <= MAX_CIPHERTEXT && |s.a| < MAX_RECORDS && Bytes(s.a) + FrameSize(|s.a| + 1, length) <= MAX_BYTES
  }

  function ReadSteps(w: nat): seq<Step> { [Begin(w), ReadFirst(w), ReadSecond(w), ReadSaved(w)] }

  function LockSteps(w: nat, intent: Intent): seq<Step>
  {
    [Claim(w, intent), StartAppend(w), Lock(w), Lock(w), Lock(w)]
  }

  function ScanSteps(w: nat, length: nat, nonce: nat): seq<Step>
  {
    [ScanFirst(w), ScanSecond(w), Verify(w, length, nonce)]
  }

  function WriteSteps(w: nat): seq<Step> { [LinkFirst(w), SyncFirst(w), LinkSecond(w), SyncSecond(w)] }

  function SaveSteps(w: nat): seq<Step> { [Rename(w), SyncSaved(w), Unlock(w), Unlock(w), Unlock(w)] }

  function CommitSteps(w: nat): seq<Step> { [Advance(w), Commit(w)] }

  /** One pass of the worker over one due job. */
  function Pass(w: nat, intent: Intent, length: nat, nonce: nat): seq<Step> {
    ReadSteps(w) + (LockSteps(w,
                              intent) + (ScanSteps(w, length,
                                                   nonce) + (WriteSteps(w) + (SaveSteps(w) + CommitSteps(w)))))
  }

  lemma {:induction false} RunConcat(s: Machine, a: seq<Step>, b: seq<Step>)
    ensures Run(s, a + b) == Run(Run(s, a), b)
    decreases |a|
  {
    hide Next;
    if a == [] {
      assert a + b == b;
    } else {
      RunConcat(Next(s, a[0]), a[1..], b);
      assert (a + b)[1..] == a[1..] + b;
    }
  }

  lemma RunFive(s: Machine, a: Step, b: Step, c: Step, d: Step, e: Step)
    ensures Run(s, [a, b]) == Next(Next(s, a), b)
    ensures Run(s, [a, b, c]) == Next(Next(Next(s, a), b), c)
    ensures Run(s, [a, b, c, d]) == Next(Next(Next(Next(s, a), b), c), d)
    ensures Run(s, [a, b, c, d, e]) == Next(Next(Next(Next(Next(s, a), b), c), d), e)
  {
    hide Next;
    RunPair(s, a, b);
    RunPair(Next(Next(s, a), b), c, d);
    RunConcat(s, [a, b], [c]);
    RunConcat(s, [a, b], [c, d]);
    RunConcat(s, [a, b, c, d], [e]);
    assert [a, b] + [c] == [a, b, c] && [a, b] + [c, d] == [a, b, c, d] && [a, b, c, d] + [e] == [a, b, c, d, e];
    RunSingle(Next(Next(s, a), b), c);
    RunSingle(Run(s, [a, b, c, d]), e);
  }

  lemma RunSingle(s: Machine, a: Step)
    ensures Run(s, [a]) == Next(s, a)
  {
  }

  lemma RunPair(s: Machine, a: Step, b: Step)
    ensures Run(s, [a, b]) == Next(Next(s, a), b)
  {
    hide Next;
    assert [a, b][1..] == [b];
    RunSingle(Next(s, a), b);
  }

  /** `t` has the record of `s`. */
  predicate SameRecord(s: Machine, t: Machine) {
    t.journal == s.journal && t.a == s.a && t.b == s.b && t.saved == s.saved && t.db == s.db && t.denied == s.denied
  }

  lemma ReadStage(s: Machine, w: nat, length: nat)
    requires Inv(s) && Ready(s, w, length)
    ensures var t := Run(s, ReadSteps(w));
      && SameRecord(s, t) && t.locks == {} && t.row == Some(w)
         && At(t, w) == Worker(Inspected, s.db, true, Intent(0, 0, 0))
  {
    AgreesNow(s);
    RunFive(s, Begin(w), ReadFirst(w), ReadSecond(w), ReadSaved(w), NoJob(w));
    hide Run, CheckpointOf, Inv;
  }

  lemma LockStage(s: Machine, w: nat, intent: Intent)
    requires At(s, w).phase.Inspected? && At(s, w).live && s.locks == {}
    ensures var t := Run(s, LockSteps(w, intent));
      && SameRecord(s, t) && t.row == s.row && t.locks == {0, 1, 2}
         && At(t, w) == At(s, w).(phase := Locking(3), intent := intent)
  {
    RunFive(s, Claim(w, intent), StartAppend(w), Lock(w), Lock(w), Lock(w));
    hide Run;
    var s2 := Next(Next(s, Claim(w, intent)), StartAppend(w));
    assert SameRecord(s, s2) && s2.row == s.row && s2.locks == {}
           && At(s2, w) == At(s, w).(phase := Locking(0), intent := intent);
    LockThree(s2, w);
  }

  lemma LockOne(s: Machine, w: nat)
    requires At(s, w).phase.Locking? && At(s, w).phase.count < 3 && At(s, w).phase.count !in s.locks
    ensures var t, n := Next(s, Lock(w)), At(s, w).phase.count;
      SameRecord(s, t) && t.row == s.row && t.locks == s.locks + {n} && At(t, w) == At(s, w).(phase := Locking(n + 1))
  {
  }

  lemma LockThree(s: Machine, w: nat)
    requires At(s, w).phase == Locking(0) && s.locks == {}
    ensures var t := Next(Next(Next(s, Lock(w)), Lock(w)), Lock(w));
      SameRecord(s, t) && t.row == s.row && t.locks == {0, 1, 2} && At(t, w) == At(s, w).(phase := Locking(3))
  {
    hide Next;
    LockOne(s, w);
    LockOne(Next(s, Lock(w)), w);
    LockOne(Next(Next(s, Lock(w)), Lock(w)), w);
  }

  lemma ScanStage(s: Machine, w: nat, length: nat, nonce: nat)
    requires At(s, w).phase == Locking(3) && s.b == s.a && s.saved == CheckpointOf(s.journal, s.a) == At(s, w).expected
    requires |s.a| < MAX_RECORDS && 0 < length <= MAX_CIPHERTEXT
             && Bytes(s.a) + FrameSize(|s.a| + 1, length) <= MAX_BYTES
    ensures var t := Run(s, ScanSteps(w, length, nonce));
      && SameRecord(s, t) && t.row == s.row && t.locks == s.locks
      && At(t, w) == At(s, w).(phase := Verified(NewFile(At(s, w).expected, Cipher(At(s, w).intent, length, nonce))))
  {
    hide Run, Next, Bytes, FrameSize, NewFile;
    RunFive(s, ScanFirst(w), ScanSecond(w), Verify(w, length, nonce), NoJob(w), NoJob(w));
    BothScanned(s, w);
    VerifyPasses(Next(Next(s, ScanFirst(w)), ScanSecond(w)), w, length, nonce);
  }

  lemma BothScanned(s: Machine, w: nat)
    requires At(s, w).phase == Locking(3) && s.b == s.a && s.saved == CheckpointOf(s.journal, s.a)
    ensures var t := Next(Next(s, ScanFirst(w)), ScanSecond(w));
      SameRecord(s, t) && t.row == s.row && t.locks == s.locks && At(t, w) == At(s, w).(phase := ScannedBoth(s.saved))
  {
  }

  lemma VerifyPasses(s: Machine, w: nat, length: nat, nonce: nat)
    requires At(s, w).phase.ScannedBoth? && s.saved == At(s, w).phase.seen == At(s, w).expected
    requires |s.a| < MAX_RECORDS && 0 < length <= MAX_CIPHERTEXT
             && Bytes(s.a) + FrameSize(|s.a| + 1, length) <= MAX_BYTES
    ensures var t := Next(s, Verify(w, length, nonce));
      && SameRecord(s, t) && t.row == s.row && t.locks == s.locks
      && At(t, w) == At(s, w).(phase := Verified(NewFile(At(s, w).expected, Cipher(At(s, w).intent, length, nonce))))
  {
  }

  lemma WriteStage(s: Machine, w: nat)
    requires At(s, w).phase.Verified? && s.b == s.a
    ensures var t, file := Run(s, WriteSteps(w)), At(s, w).phase.file;
      && SameRecord(s.(a := s.a + [file], b := s.a + [file]), t) && t.row == s.row && t.locks == s.locks
      && At(t, w) == At(s, w).(phase := WroteSecond(file))
  {
    hide Run, Next;
    RunFive(s, LinkFirst(w), SyncFirst(w), LinkSecond(w), SyncSecond(w), NoJob(w));
    FirstWritten(s, w);
    SecondWritten(Next(Next(s, LinkFirst(w)), SyncFirst(w)), w);
  }

  lemma FirstWritten(s: Machine, w: nat)
    requires At(s, w).phase.Verified?
    ensures var t, file := Next(Next(s, LinkFirst(w)), SyncFirst(w)), At(s, w).phase.file;
      SameRecord(s.(a := s.a + [file]), t) && t.row == s.row && t.locks == s.locks
      && At(t, w) == At(s, w).(phase := WroteFirst(file))
  {
  }

  lemma SecondWritten(s: Machine, w: nat)
    requires At(s, w).phase.WroteFirst?
    ensures var t, file := Next(Next(s, LinkSecond(w)), SyncSecond(w)), At(s, w).phase.file;
      SameRecord(s.(b := s.b + [file]), t) && t.row == s.row && t.locks == s.locks
      && At(t, w) == At(s, w).(phase := WroteSecond(file))
  {
  }

  lemma SaveStage(s: Machine, w: nat)
    requires At(s, w).phase.WroteSecond? && s.locks == {0, 1, 2}
    ensures var t, file := Run(s, SaveSteps(w)), At(s, w).phase.file;
      && SameRecord(s.(saved := NextCheckpoint(s, file)), t) && t.row == s.row && t.locks == {}
      && At(t, w) == At(s, w).(phase := Releasing(file, 0))
  {
    RunFive(s, Rename(w), SyncSaved(w), Unlock(w), Unlock(w), Unlock(w));
    hide Run, NextCheckpoint;
    var file := At(s, w).phase.file;
    var t := Next(Next(s, Rename(w)), SyncSaved(w));
    assert SameRecord(s.(saved := NextCheckpoint(s, file)), t) && t.row == s.row && t.locks == s.locks
           && At(t, w) == At(s, w).(phase := Releasing(file, 3));
    UnlockThree(t, w);
  }

  lemma UnlockThree(s: Machine, w: nat)
    requires At(s, w).phase.Releasing? && At(s, w).phase.count == 3 && s.locks == {0, 1, 2}
    ensures var t := Next(Next(Next(s, Unlock(w)), Unlock(w)), Unlock(w));
      SameRecord(s, t) && t.row == s.row && t.locks == {}
      && At(t, w) == At(s, w).(phase := Releasing(At(s, w).phase.file, 0))
  {
  }

  lemma CommitStage(s: Machine, w: nat)
    requires At(s, w).phase.Releasing? && At(s, w).phase.count == 0 && At(s, w).live && s.db == At(s, w).expected
             && s.row == Some(w)
    ensures var t, k := Run(s, CommitSteps(w)), At(s, w);
      && SameRecord(s.(db := NextCheckpoint(s, k.phase.file), denied := s.denied + {k.intent}), t)
      && t.row.None? && t.locks == s.locks && At(t, w).phase.Idle?
  {
    RunPair(s, Advance(w), Commit(w));
    hide Run;
  }

  /** Undisturbed, a worker's pass appends its frame to both copies, saves the checkpoint, and
      commits the denial and the database checkpoint together. */
  lemma UndisturbedCommit(s: Machine, w: nat, intent: Intent, length: nat, nonce: nat)
    requires Inv(s) && Ready(s, w, length)
    ensures var t := Run(s, Pass(w, intent, length, nonce));
      var file := NewFile(s.db, Cipher(intent, length, nonce));
      && t.a == s.a + [file] && t.b == t.a && t.saved == CheckpointOf(s.journal, t.a) && t.db == t.saved
      && t.denied == s.denied + {intent} && t.locks == {} && t.row.None? && At(t, w).phase.Idle?
  {
    hide Run, Inv, Chained, Bytes, FrameSize, Next, ReadSteps, LockSteps, ScanSteps, WriteSteps, SaveSteps, CommitSteps;
    AgreesNow(s);
    var file := NewFile(s.db, Cipher(intent, length, nonce));
    ReadStage(s, w, length);
    var s1 := Run(s, ReadSteps(w));
    LockStage(s1, w, intent);
    var s2 := Run(s1, LockSteps(w, intent));
    ScanStage(s2, w, length, nonce);
    var s3 := Run(s2, ScanSteps(w, length, nonce));
    WriteStage(s3, w);
    var s4 := Run(s3, WriteSteps(w));
    SaveStage(s4, w);
    var s5 := Run(s4, SaveSteps(w));
    CommitStage(s5, w);
    var r4 := SaveSteps(w) + CommitSteps(w);
    var r3 := WriteSteps(w) + r4;
    var r2 := ScanSteps(w, length, nonce) + r3;
    RunConcat(s, ReadSteps(w), LockSteps(w, intent) + r2);
    RunConcat(s1, LockSteps(w, intent), r2);
    RunConcat(s2, ScanSteps(w, length, nonce), r3);
    RunConcat(s3, WriteSteps(w), r4);
    RunConcat(s4, SaveSteps(w), CommitSteps(w));
    assert HeadOf(s.journal, s.a + [file]) == Sha(file);
  }

  lemma AgreesNow(s: Machine)
    requires Inv(s) && |s.a| == s.db.sequence
    ensures s.b == s.a && s.saved == s.db == CheckpointOf(s.journal, s.a)
  {
  }

  // ---- when a fence is lost -----------------------------------------------------------------------------

  function Outage(): Step { PowerLoss(true, false, false, {}) }

  /** A frame in copy A whose directory entry was never synced can vanish with a power loss; the
      journal then agrees with the database again, and the next pass commits. */
  lemma LostThenCommits(s: Machine, w: nat, intent: Intent, length: nat, nonce: nat)
    requires Inv(s) && s.dirtyA && 0 < length <= MAX_CIPHERTEXT && |s.a| <= MAX_RECORDS
    requires Bytes(s.a[..|s.a| - 1]) + FrameSize(|s.a|, length) <= MAX_BYTES
    ensures var t := Run(s, [Outage()] + Pass(w, intent, length, nonce));
      t.denied == s.denied + {intent} && t.db == t.saved == CheckpointOf(s.journal, t.a) && |t.a| == |s.a| && t.b == t.a
      && t.db.sequence == s.db.sequence + 1
  {
    var lost := Next(s, Outage());
    assert Ready(lost, w, length) && lost.denied == s.denied && |lost.a| == s.db.sequence == |s.a| - 1;
    assert lost.journal == s.journal;
    StepKeeps(s, Outage());
    hide Inv, Next, Ready, Pass, Bytes, FrameSize;
    RunConcat(s, [Outage()], Pass(w, intent, length, nonce));
    RunSingle(s, Outage());
    UndisturbedCommit(lost, w, intent, length, nonce);
  }

  // ---- sizes --------------------------------------------------------------------------------------------

  /** A frame of the size its ciphertext gives at place `n`. */
  predicate Measured(f: File, n: nat) {
    f.body.Frame? && 0 < f.body.cipher.length <= MAX_CIPHERTEXT && f.size == FrameSize(n, f.body.cipher.length)
  }

  /** A verified frame still fits. */
  predicate Fitting(a: seq<File>, p: Phase) {
    p.Verified? ==> Measured(p.file, |a| + 1) && |a| < MAX_RECORDS && Bytes(a) + p.file.size <= MAX_BYTES
  }

  predicate Sized(a: seq<File>) {
    |a| <= MAX_RECORDS && Bytes(a) <= MAX_BYTES && forall i :: 0 <= i < |a| ==> Measured(a[i], i + 1)
  }

  ghost predicate AllFit(s: Machine) {
    Sized(s.a) && forall w :: Fitting(s.a, At(s, w).phase)
  }

  lemma SizedAppend(a: seq<File>, f: File)
    requires Sized(a) && Fitting(a, Verified(f))
    ensures Sized(a + [f])
  {
    assert (a + [f])[..|a + [f]| - 1] == a;
    hide FrameSize;
  }

  lemma SizedPrefix(a: seq<File>, n: nat)
    requires Sized(a) && n <= |a|
    ensures Sized(a[..n])
  {
    hide FrameSize;
    BytesMonotone(a, n);
  }

  /** Only verification starts a frame. */
  lemma NothingVerified(s: Machine, step: Step)
    requires !step.PowerLoss? && !step.Verify?
    ensures var j := At(Next(s, step), step.w).phase; j.Verified? ==> j == At(s, step.w).phase && !step.LinkFirst?
  {
    hide NewFile, CheckpointOf, Bytes, FrameSize, NextCheckpoint, LocksOf, FreeRow;
  }

  lemma VerifyFits(s: Machine, w: nat, length: nat, nonce: nat)
    requires Inv(s) && Next(s, Verify(w, length, nonce)) != s
    ensures var t := Next(s, Verify(w, length, nonce)); t.a == s.a && Fitting(s.a, At(t, w).phase)
  {
    hide Chained, History, Unsynced, Exclusive, FrameSize, Bytes;
    assert WorkerOk(s, w);
  }

  lemma LinkFits(s: Machine, w: nat)
    requires Inv(s) && AllFit(s) && At(s, w).phase.Verified?
    ensures AllFit(Next(s, LinkFirst(w)))
  {
    var t := Next(s, LinkFirst(w));
    assert Fitting(s.a, At(s, w).phase);
    SizedAppend(s.a, At(s, w).phase.file);
    forall v
      ensures !At(t, v).phase.Verified?
    {
      if v != w {
        OthersOutside(s, w, v);
        OneWorkerMoves(s, LinkFirst(w), v);
      }
    }
  }

  /** Every step keeps the frames within the journal's bounds. */
  lemma FitKept(s: Machine, step: Step)
    requires Inv(s) && AllFit(s)
    ensures AllFit(Next(s, step))
  {
    var t := Next(s, step);
    if step.LinkFirst? {
      if At(s, step.w).phase.Verified? {
        LinkFits(s, step.w);
      }
    } else if step.PowerLoss? {
      SizedPrefix(s.a, |t.a|);
    } else {
      SameCopyA(s, step);
      if step.Verify? {
        if t != s {
          VerifyFits(s, step.w, step.length, step.nonce);
        }
      } else {
        NothingVerified(s, step);
      }
      hide Next, Inv, Fitting, Sized;
      forall v
        ensures Fitting(s.a, At(t, v).phase)
      {
        if v != step.w {
          OneWorkerMoves(s, step, v);
        } else {
          Unverified(s.a, At(t, v).phase);
        }
      }
    }
  }

  lemma Unverified(a: seq<File>, p: Phase)
    ensures !p.Verified? ==> Fitting(a, p)
  {
  }

  lemma SameCopyA(s: Machine, step: Step)
    requires !step.LinkFirst? && !step.PowerLoss?
    ensures Next(s, step).a == s.a
  {
    if !step.Commit? {
      hide Next;
      RecordKept(s, step);
    }
  }

  lemma {:induction false} RunFits(s: Machine, steps: seq<Step>)
    requires Inv(s) && AllFit(s)
    ensures Inv(Run(s, steps)) && AllFit(Run(s, steps))
    decreases |steps|
  {
    if steps != [] {
      StepKeeps(s, steps[0]);
      FitKept(s, steps[0]);
      hide Inv, AllFit, Next;
      RunFits(Next(s, steps[0]), steps[1..]);
    }
  }

  /** Exactly then is a mismatch no fence: from a reachable fenced state some run moves the database on
      if and only if the frame ahead is not synced. */
  lemma FenceLostIff(journal: nat, before: seq<Step>)
    requires Fenced(Run(Start(journal), before))
    ensures var s := Run(Start(journal), before);
      (exists steps :: Run(s, steps).db != s.db) <==> s.dirtyA
  {
    var s := Run(Start(journal), before);
    StartInv(journal);
    StartFits(journal);
    RunFits(Start(journal), before);
    hide Run, Inv, AllFit;
    if s.dirtyA {
      var length := LastLength(s);
      LostThenCommits(s, 0, Intent(0, 0, 0), length, 0);
      assert Run(s, [Outage()] + Pass(0, Intent(0, 0, 0), length, 0)).db != s.db;
    } else {
      forall steps
        ensures Run(s, steps).db == s.db
      {
        SyncedStays(s, steps);
        FencedForever(s, steps);
      }
    }
  }

  lemma StartFits(journal: nat)
    ensures AllFit(Start(journal))
  {
  }

  /** There is room for a frame as long as the last one. */
  lemma LastLength(s: Machine) returns (length: nat)
    requires Inv(s) && AllFit(s) && s.db.sequence < |s.a|
    ensures 0 < length <= MAX_CIPHERTEXT && |s.a| <= MAX_RECORDS
    ensures Bytes(s.a[..|s.a| - 1]) + FrameSize(|s.a|, length) <= MAX_BYTES
  {
    hide FrameSize, Inv;
    var n := |s.a| - 1;
    assert Measured(s.a[n], n + 1);
    length := s.a[n].body.cipher.length;
  }
}
