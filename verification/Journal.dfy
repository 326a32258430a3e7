/** The deletion journal: one directory of chained frame files per copy, a separate checkpoint,
    and the append that writes them. Authentication is taken as unforgeable: a file either carries
    a body this journal's key has signed, or is `Foreign`. */
module Journal {
  import opened Basics

  const MAX_RECORDS := 4096
  const MAX_BYTES := 64 * 1024 * 1024
  const MAX_FILE := 65536
  const MAX_CIPHERTEXT := 32768

  /** A denial: which request removes which user, at which generation. */
  datatype Intent = Intent(request: nat, user: nat, generation: nat)

  /** Encryption is opaque: a ciphertext gives back its intent to the identity's holder only. */
  datatype Cipher = Cipher(intent: Intent, length: nat, nonce: nat)

  datatype Body = Frame(journal: nat, sequence: nat, previous: Head, cipher: Cipher) | Foreign

  /** A file's bytes: the body they spell, which spelling of it, and how many they are. */
  datatype File = File(body: Body, spelling: nat, size: nat)

  /** SHA-256, taken as injective. */
  datatype Head = Genesis(journal: nat) | Sha(file: File)

  datatype Checkpoint = Checkpoint(journal: nat, sequence: nat, head: Head)

  /** A copy: its identity marker, its files by eight-digit name, and its other entries. */
  datatype Dir = Dir(marker: Option<nat>, files: map<nat, File>, others: nat)

  datatype Scan = Scan(checkpoint: Checkpoint, frames: seq<File>, size: nat)

  // ---- the chain ----------------------------------------------------------------------------------

  function HeadOf(journal: nat, frames: seq<File>): Head {
    if frames == [] then Genesis(journal) else Sha(frames[|frames| - 1])
  }

  function CheckpointOf(journal: nat, frames: seq<File>): Checkpoint {
    Checkpoint(journal, |frames|, HeadOf(journal, frames))
  }

  predicate Links(journal: nat, frames: seq<File>, i: nat)
    requires i < |frames|
  {
    var f := frames[i];
    && f.size <= MAX_FILE && f.body.Frame? && f.body.journal == journal && f.body.sequence == i + 1
    && f.body.previous == HeadOf(journal, frames[..i]) && f.body.cipher.length > 0
  }

  predicate Chained(journal: nat, frames: seq<File>) {
    forall i :: 0 <= i < |frames| ==> Links(journal, frames, i)
  }

  function Bytes(frames: seq<File>): nat {
    if frames == [] then 0 else Bytes(frames[..|frames| - 1]) + frames[|frames| - 1].size
  }

  lemma {:induction false} BytesMonotone(frames: seq<File>, n: nat)
    requires n <= |frames|
    ensures Bytes(frames[..n]) <= Bytes(frames)
  {
    if n < |frames| {
      BytesMonotone(frames[..|frames| - 1], n);
      assert frames[..|frames| - 1][..n] == frames[..n];
    } else {
      assert frames[..n] == frames;
    }
  }

  lemma ChainedPrefix(journal: nat, frames: seq<File>, n: nat)
    requires Chained(journal, frames) && n <= |frames|
    ensures Chained(journal, frames[..n])
  {
    forall i | 0 <= i < n
      ensures Links(journal, frames[..n], i)
    {
      assert Links(journal, frames, i);
      assert frames[..n][..i] == frames[..i];
    }
  }

  /** Equal heads pin equal histories: the head and the journal's name fix every frame before it. */
  lemma {:induction false} ChainPinned(journal: nat, a: seq<File>, b: seq<File>)
    requires Chained(journal, a) && Chained(journal, b) && HeadOf(journal, a) == HeadOf(journal, b)
    ensures a == b
    decreases |a|
  {
    if a != [] && b != [] {
      var n, m := |a| - 1, |b| - 1;
      assert Links(journal, a, n) && Links(journal, b, m);
      ChainedPrefix(journal, a, n);
      ChainedPrefix(journal, b, m);
      ChainPinned(journal, a[..n], b[..m]);
      assert a == a[..n] + [a[n]] && b == b[..m] + [b[m]];
    }
  }

  /** A chain whose head stands somewhere in another chain is that chain's beginning. */
  lemma HeadWithin(journal: nat, a: seq<File>, b: seq<File>, n: nat)
    requires Chained(journal, a) && Chained(journal, b) && n <= |b| && HeadOf(journal, a) == HeadOf(journal, b[..n])
    ensures a == b[..n]
  {
    ChainedPrefix(journal, b, n);
    ChainPinned(journal, a, b[..n]);
  }

  // ---- scanning a copy ------------------------------------------------------------------------------

  function Names(n: nat): (s: set<nat>)
    ensures forall i :: i in s <==> 1 <= i <= n
    ensures |s| == n
  {
    if n == 0 then {} else Names(n - 1) + {n}
  }

  /** The frames of a copy whose names are 1 to n. */
  function FramesOf(dir: Dir, n: nat): (frames: seq<File>)
    requires forall i :: 1 <= i <= n ==> i in dir.files
    ensures |frames| == n && forall i :: 0 <= i < n ==> frames[i] == dir.files[i + 1]
  {
    if n == 0 then [] else FramesOf(dir, n - 1) + [dir.files[n]]
  }

  predicate Numbered(dir: Dir) {
    dir.files.Keys == Names(|dir.files|)
  }

  /** A copy that `scan` accepts. */
  predicate Accepted(dir: Dir, journal: nat) {
    && dir.marker == Some(journal) && |dir.files| + dir.others <= MAX_RECORDS + 16
    && |dir.files| <= MAX_RECORDS && Numbered(dir)
    && var frames := FramesOf(dir, |dir.files|);
       Chained(journal, frames) && Bytes(frames) <= MAX_BYTES
  }

  /** The rules a scan checks of the file after `frames`. */
  predicate Follows(journal: nat, frames: seq<File>, file: File) {
    && Bytes(frames) + file.size <= MAX_BYTES && file.size <= MAX_FILE && file.body.Frame? && file.body.journal
       == journal
    && file.body.sequence == |frames| + 1 && file.body.previous == HeadOf(journal, frames)
       && file.body.cipher.length > 0
  }

  /** What the scan has read of a copy: its first `i` frames, a chain within the bounds. */
  predicate ScannedTo(dir: Dir, journal: nat, frames: seq<File>, i: nat) {
    (forall j :: 1 <= j <= i ==> j in dir.files) && frames == FramesOf(dir, i) && Chained(journal, frames)
    && Bytes(frames) <= MAX_BYTES
  }

  lemma ScanStep(dir: Dir, journal: nat, frames: seq<File>, i: nat)
    requires ScannedTo(dir, journal, frames, i) && i < |dir.files| && i + 1 in dir.files
    ensures if Follows(journal, frames, dir.files[i + 1])
            then ScannedTo(dir, journal, frames + [dir.files[i + 1]], i + 1) else !Accepted(dir, journal)
    ensures HeadOf(journal, frames + [dir.files[i + 1]]) == Sha(dir.files[i + 1])
    ensures Bytes(frames + [dir.files[i + 1]]) == Bytes(frames) + dir.files[i + 1].size
  {
    var file := dir.files[i + 1];
    assert (frames + [file])[..|frames|] == frames;
    if Follows(journal, frames, file) {
      ChainExtends(journal, frames, file);
    } else {
      hide Accepted, Chained, Bytes;
      RejectedEarly(dir, journal, i);
    }
  }

  lemma ScanEnds(dir: Dir, journal: nat, frames: seq<File>)
    requires ScannedTo(dir, journal, frames, |dir.files|) && dir.marker == Some(journal)
    requires |dir.files| + dir.others <= MAX_RECORDS + 16 && |dir.files| <= MAX_RECORDS
    ensures Accepted(dir, journal) && frames == FramesOf(dir, |dir.files|) && |frames| == |dir.files|
  {
    AllNamed(dir);
  }

  lemma NothingScanned(dir: Dir, journal: nat)
    ensures ScannedTo(dir, journal, [], 0) && HeadOf(journal, []) == Genesis(journal) && Bytes([]) == 0
  {
  }

  /** `scan`: accepts exactly the accepted copies and returns their checkpoint and frames. */
  method ScanCopy(dir: Dir, journal: nat) returns (r: Option<Scan>)
    ensures r.Some? <==> Accepted(dir, journal)
    ensures r.Some? ==>
              var frames := FramesOf(dir, |dir.files|);
              r.value == Scan(CheckpointOf(journal, frames), frames, Bytes(frames))
  {
    if dir.marker != Some(journal) || |dir.files| + dir.others > MAX_RECORDS + 16 || |dir.files| > MAX_RECORDS {
      return None;
    }
    var head, size, frames, i := Genesis(journal), 0, [], 0;
    NothingScanned(dir, journal);
    hide Accepted, ScannedTo, Bytes, HeadOf;
    while i < |dir.files|
      invariant 0 <= i == |frames| <= |dir.files| && ScannedTo(dir, journal, frames, i)
      invariant head == HeadOf(journal, frames) && size == Bytes(frames)
    {
      if i + 1 !in dir.files {
        MissingName(dir, i + 1);
        NotNumbered(dir, journal);
        return None;
      }
      var file := dir.files[i + 1];
      ScanStep(dir, journal, frames, i);
      size := size + file.size;
      if size > MAX_BYTES || file.size > MAX_FILE || !file.body.Frame? || file.body.journal != journal
         || file.body.sequence != i + 1 || file.body.previous != head || file.body.cipher.length == 0 {
        return None;
      }
      frames := frames + [file];
      head := Sha(file);
      i := i + 1;
    }
    ScanEnds(dir, journal, frames);
    return Some(Scan(Checkpoint(journal, |dir.files|, head), frames, size));
  }

  lemma NotNumbered(dir: Dir, journal: nat)
    requires !Numbered(dir)
    ensures !Accepted(dir, journal)
  {
  }

  lemma MissingName(dir: Dir, i: nat)
    requires 1 <= i <= |dir.files| && i !in dir.files
    ensures !Numbered(dir)
  {
  }

  lemma AllNamed(dir: Dir)
    requires forall j :: 1 <= j <= |dir.files| ==> j in dir.files
    ensures Numbered(dir)
  {
    SubsetOfSize(Names(|dir.files|), dir.files.Keys);
  }

  lemma SubsetOfSize(a: set<nat>, b: set<nat>)
    requires a <= b && |a| == |b|
    ensures a == b
  {
    assert b == a + (b - a);
  }

  /** A file that does not link, or passes the byte limit, spoils the whole copy. */
  lemma FramesPrefix(dir: Dir, n: nat, m: nat)
    requires m <= n && forall j :: 1 <= j <= n ==> j in dir.files
    ensures FramesOf(dir, n)[..m] == FramesOf(dir, m) && |FramesOf(dir, n)| == n
    ensures forall i :: 0 <= i < n ==> FramesOf(dir, n)[i] == dir.files[i + 1]
  {
  }

  /** A frame that breaks one of the scan's rules is part of no accepted history. */
  lemma RejectedEarly(dir: Dir, journal: nat, i: nat)
    requires i < |dir.files| && forall j :: 1 <= j <= i + 1 ==> j in dir.files
    requires var frames, file := FramesOf(dir, i), dir.files[i + 1];
      || Bytes(frames) + file.size > MAX_BYTES || file.size > MAX_FILE || !file.body.Frame?
         || file.body.journal != journal
      || file.body.sequence != i + 1 || file.body.previous != HeadOf(journal, frames) || file.body.cipher.length == 0
    ensures !Accepted(dir, journal)
  {
    if Numbered(dir) {
      var n := |dir.files|;
      var all, frames := FramesOf(dir, n), FramesOf(dir, i + 1);
      FramesPrefix(dir, n, i);
      FramesPrefix(dir, n, i + 1);
      FramesPrefix(dir, i + 1, i);
      hide FramesOf;
      BytesMonotone(all, i + 1);
      assert Links(journal, all, i) ==> Links(journal, frames, i);
    }
  }

  /** `headOnly`: the names are complete and the last frame is authentic and numbered. */
  function HeadOnly(dir: Dir, journal: nat): Option<Checkpoint> {
    var n := |dir.files|;
    if dir.marker != Some(journal) || n + dir.others > MAX_RECORDS + 16 || n > MAX_RECORDS || !Numbered(dir) then None
    else if n == 0 then Some(Checkpoint(journal, 0, Genesis(journal)))
    else
      assert n in Names(n);
      var tail := dir.files[n];
      if tail.size > MAX_FILE || !tail.body.Frame? || tail.body.journal != journal || tail.body.sequence != n then None
      else Some(Checkpoint(journal, n, Sha(tail)))
  }

  /** On every copy that `scan` accepts, the cheap check returns what `scan` returns. */
  lemma HeadOnlyIsScan(dir: Dir, journal: nat)
    requires Accepted(dir, journal)
    ensures HeadOnly(dir, journal) == Some(CheckpointOf(journal, FramesOf(dir, |dir.files|)))
  {
    if |dir.files| > 0 {
      assert Links(journal, FramesOf(dir, |dir.files|), |dir.files| - 1);
    }
  }

  /** The cheap check reads the tail only: with an authentic tail it passes a copy whose earlier
      frame was replaced, which `scan` refuses. So a full scan must come before it. */
  lemma HeadOnlyNeedsScan(journal: nat, first: File, other: File, second: File)
    requires second.size <= MAX_FILE && second.body.Frame? && second.body.journal == journal && second.body.sequence
             == 2
    requires second.body.previous == Sha(first) && other != first
    ensures var dir := Dir(Some(journal), map[1 := other, 2 := second], 1);
      HeadOnly(dir, journal) == Some(Checkpoint(journal, 2, Sha(second))) && !Accepted(dir, journal)
  {
    var dir := Dir(Some(journal), map[1 := other, 2 := second], 1);
    assert dir.files.Keys == {1, 2} == Names(2);
    assert |dir.files| == 2;
    var frames := FramesOf(dir, 2);
    assert frames[..1] == [other];
    assert !Links(journal, frames, 1);
  }

  /** After a full scan matched a checkpoint, a copy that still passes the cheap check against it
      and still holds an accepted chain holds the same frames: nothing was dropped or altered. */
  lemma CheckpointPinsCopy(dir: Dir, later: Dir, journal: nat)
    requires Accepted(dir, journal) && Accepted(later, journal)
    requires HeadOnly(later, journal) == HeadOnly(dir, journal)
    ensures FramesOf(later, |later.files|) == FramesOf(dir, |dir.files|)
  {
    HeadOnlyIsScan(dir, journal);
    HeadOnlyIsScan(later, journal);
    ChainPinned(journal, FramesOf(later, |later.files|), FramesOf(dir, |dir.files|));
  }

  // ---- reading the journal back -----------------------------------------------------------------------

  function IntentsOf(frames: seq<File>): seq<Intent> {
    if frames == [] then []
    else IntentsOf(frames[..|frames| - 1])
         + if frames[|frames| - 1].body.Frame? then [frames[|frames| - 1].body.cipher.intent] else []
  }

  /** The head of every prefix. */
  method HeadsOf(journal: nat, frames: seq<File>) returns (heads: seq<Head>)
    ensures |heads| == |frames| + 1 && forall j :: 0 <= j <= |frames| ==> heads[j] == HeadOf(journal, frames[..j])
  {
    heads := [Genesis(journal)];
    var i := 0;
    while i < |frames|
      invariant 0 <= i <= |frames| && |heads| == i + 1
      invariant forall j :: 0 <= j <= i ==> heads[j] == HeadOf(journal, frames[..j])
    {
      heads := heads + [Sha(frames[i])];
      i := i + 1;
    }
  }

  /** What `readLifecycleJournal` returns. */
  datatype Recovered = Recovered(checkpoint: Checkpoint, intents: seq<Intent>, heads: seq<Head>)

  predicate NoConflict(intents: seq<Intent>) {
    forall i, j :: 0 <= i < j < |intents| && intents[i].user == intents[j].user ==> intents[i] == intents[j]
  }

  predicate OnePerUser(intents: seq<Intent>) {
    forall i, j :: 0 <= i < j < |intents| ==> intents[i].user != intents[j].user
  }

  /** Each user's intent once, in the order first written, unless two say different things about
      one user. */
  method OncePerUser(frames: seq<Intent>) returns (r: Option<seq<Intent>>)
    ensures r.Some? <==> NoConflict(frames)
    ensures r.Some? ==> OnePerUser(r.value) && forall x :: x in r.value <==> x in frames
  {
    var intents, seen: map<nat, Intent>, i := [], map[], 0;
    while i < |frames|
      invariant 0 <= i <= |frames|
      invariant NoConflict(frames[..i]) && OnePerUser(intents)
      invariant forall x :: x in intents <==> x in frames[..i]
      invariant forall u :: u in seen <==> exists x :: x in intents && x.user == u
      invariant forall u :: u in seen ==> seen[u] in intents && seen[u].user == u
    {
      var intent := frames[i];
      assert frames[..i + 1] == frames[..i] + [intent];
      if intent.user in seen && seen[intent.user] != intent {
        var j :| 0 <= j < |frames[..i]| && frames[..i][j] == seen[intent.user];
        assert frames[j].user == frames[i].user && frames[j] != frames[i];
        return None;
      }
      if intent.user !in seen {
        seen := seen[intent.user := intent];
        intents := intents + [intent];
      }
      forall j | 0 <= j < i && frames[j].user == intent.user
        ensures frames[j] == intent
      {
        assert frames[j] == frames[..i][j];
        assert frames[j] in intents;
      }
      i := i + 1;
    }
    assert frames[..|frames|] == frames;
    return Some(intents);
  }

  // ---- appending ------------------------------------------------------------------------------------

  function Base64Length(n: nat): nat { (n + 2) / 3 * 4 }

  function Digits(n: nat): nat {
    if n < 10 then 1 else 1 + Digits(n / 10)
  }

  /** The bytes of a frame's JSON: fixed keys and quotes, four 64-digit and format texts, the
      sequence number and the base64 ciphertext. */
  function FrameSize(sequence: nat, length: nat): nat {
    312 + Digits(sequence) + Base64Length(length)
  }

  function NewFile(checkpoint: Checkpoint, cipher: Cipher): File {
    File(Frame(checkpoint.journal, checkpoint.sequence + 1, checkpoint.head, cipher), 0,
         FrameSize(checkpoint.sequence + 1, cipher.length))
  }

  lemma {:induction false} DigitsSmall(n: nat)
    requires n < 10000
    ensures Digits(n) <= 4
  {
    var tens := n / 10;
    var hundreds := tens / 10;
    assert hundreds / 10 < 10;
    assert Digits(hundreds) <= 2;
    assert Digits(tens) <= 3;
  }

  /** The largest ciphertext still makes a frame the journal can read back. */
  lemma FrameFits(sequence: nat, length: nat)
    requires sequence < 10000 && length <= MAX_CIPHERTEXT
    ensures FrameSize(sequence, length) <= MAX_FILE
  {
    DigitsSmall(sequence);
  }

  lemma ChainExtends(journal: nat, frames: seq<File>, file: File)
    requires Chained(journal, frames) && file.size <= MAX_FILE
    requires file.body.Frame? && file.body.cipher.length > 0 && file.body.journal == journal
    requires file.body.sequence == |frames| + 1 && file.body.previous == HeadOf(journal, frames)
    ensures Chained(journal, frames + [file])
    ensures CheckpointOf(journal, frames + [file]) == Checkpoint(journal, |frames| + 1, Sha(file))
    ensures Bytes(frames + [file]) == Bytes(frames) + file.size
  {
    var longer := frames + [file];
    assert longer[..|frames|] == frames;
    forall i | 0 <= i < |longer|
      ensures Links(journal, longer, i)
    {
      if i < |frames| {
        assert Links(journal, frames, i);
        assert longer[..i] == frames[..i];
      }
    }
  }

  lemma DirExtends(dir: Dir, file: File)
    requires Numbered(dir)
    ensures var after := dir.(files := dir.files[|dir.files| + 1 := file]);
      && Numbered(after) && |after.files| == |dir.files| + 1
      && FramesOf(after, |after.files|) == FramesOf(dir, |dir.files|) + [file]
  {
  }

  /** Where an append that got past its checks stops, if it does. A copy that was written and whose
      directory could not be synced stops where the next write would; `CheckpointSync` is the same
      of the checkpoint, which is then in place although the append fails. */
  datatype Fault = NoFault | Encryption | DiskReserve | FirstCopy | SecondCopy | SaveCheckpoint | CheckpointSync

  datatype Outcome = Appended(next: Checkpoint) | Refused

  /** One process's view of the journal: the two copies, the saved checkpoint and its two flags. */
  class LifecycleJournal {
    const journal: nat
    var first: Dir
    var second: Dir
    var saved: Option<Checkpoint>
    var verifiedStartup: bool

    /** `initializeJournal`. */
    constructor (id: nat)
      ensures journal == id && !verifiedStartup && Agreed() && saved == Some(Checkpoint(id, 0, Genesis(id)))
    {
      journal := id;
      first, second := Dir(Some(id), map[], 1), Dir(Some(id), map[], 1);
      saved := Some(Checkpoint(id, 0, Genesis(id)));
      verifiedStartup := false;
      new;
      assert FramesOf(first, 0) == [];
    }

    /** What `pair` accepts: both copies scan, and both and the saved checkpoint are one. */
    predicate Agreed()
      reads this
    {
      && Accepted(first, journal) && Accepted(second, journal)
      && saved == Some(CheckpointOf(journal, Frames(first)))
      && CheckpointOf(journal, Frames(second)) == CheckpointOf(journal, Frames(first))
    }

    static function Frames(dir: Dir): seq<File> {
      if Numbered(dir) then Named(dir); FramesOf(dir, |dir.files|) else []
    }

    /** Agreement of the checkpoints is agreement of every frame of the two copies. */
    lemma AgreedFrames()
      requires Agreed()
      ensures Frames(first) == Frames(second)
    {
      ChainPinned(journal, Frames(first), Frames(second));
    }

    /** `pair`. */
    method Pair() returns (r: Option<Scan>)
      ensures r.Some? <==> Agreed()
      ensures r.Some? ==> r.value == Scan(CheckpointOf(journal, Frames(first)), Frames(first), Bytes(Frames(first)))
    {
      var a := ScanCopy(first, journal);
      var b := ScanCopy(second, journal);
      if a.None? || b.None? || a.value.checkpoint != b.value.checkpoint || saved != Some(a.value.checkpoint) {
        return None;
      }
      return a;
    }

    /** `inspect`. */
    method Inspect() returns (r: Option<Checkpoint>)
      modifies this`verifiedStartup
      ensures r == if Agreed() then Some(CheckpointOf(journal, Frames(first))) else None
      ensures verifiedStartup == (old(verifiedStartup) || r.Some?)
    {
      var state := Pair();
      if state.None? {
        return None;
      }
      verifiedStartup := true;
      return Some(state.value.checkpoint);
    }

    /** `head`: a full inspection the first time, then the cheap check. */
    method ReadHead() returns (r: Option<Checkpoint>)
      modifies this`verifiedStartup
      ensures Agreed() ==> r == Some(CheckpointOf(journal, Frames(first))) && verifiedStartup
      ensures !old(verifiedStartup) ==> (r.Some? <==> Agreed())
      ensures r.Some? ==> r == saved && HeadOnly(first, journal) == r && HeadOnly(second, journal) == r
    {
      if !verifiedStartup {
        var checkpoint := Inspect();
        if checkpoint.None? {
          return None;
        }
      }
      var a, b := HeadOnly(first, journal), HeadOnly(second, journal);
      if Agreed() {
        HeadOnlyIsScan(first, journal);
        HeadOnlyIsScan(second, journal);
      }
      if a.None? || a != b || a != saved {
        return None;
      }
      return a;
    }

    /** `append`, by the process that holds the append locks, whose directories are entries of the
        three roots while it runs. A one-copy failure leaves the copies different. */
    method Append(intent: Intent, expected: Checkpoint, length: nat, nonce: nat, fault: Fault) returns (r: Outcome)
      modifies this`first, this`second, this`saved
      ensures r.Appended? <==>
                && old(Agreed()) && old(saved) == Some(expected) && fault == NoFault && 0 < length <= MAX_CIPHERTEXT
                && old(|first.files| + first.others) < MAX_RECORDS + 16
                   && old(|second.files| + second.others) < MAX_RECORDS + 16
                && old(|first.files|) < MAX_RECORDS
                && old(Bytes(Frames(first))) + FrameSize(expected.sequence + 1, length) <= MAX_BYTES
      ensures r.Appended? ==>
                var file := NewFile(expected, Cipher(intent, length, nonce));
                && Agreed() && r.next == CheckpointOf(journal, Frames(first)) && saved == Some(r.next)
                && Frames(first) == old(Frames(first)) + [file] && Frames(second) == old(Frames(second)) + [file]
      ensures r.Refused? && fault !in {FirstCopy, SecondCopy, SaveCheckpoint, CheckpointSync} ==>
                first == old(first) && second == old(second) && saved == old(saved)
      ensures r.Refused? && fault != CheckpointSync ==> saved == old(saved)
      ensures first != old(first) && r.Refused? ==>
                && old(Agreed()) && Frames(first)
                   == old(Frames(first)) + [NewFile(expected, Cipher(intent, length, nonce))]
                && (Frames(second) == old(Frames(second)) || Frames(second) == Frames(first))
                && (Agreed() <==> fault == CheckpointSync)
      ensures first == old(first) && r.Refused? ==> second == old(second)
    {
      hide Accepted, Frames, Bytes, HeadOf, FrameSize, Numbered;
      r := Refused;
      WithLock(first, journal);
      WithLock(second, journal);
      first, second := first.(others := first.others + 1), second.(others := second.others + 1);
      var state := Pair();
      first, second := first.(others := first.others - 1), second.(others := second.others - 1);
      assert first == old(first) && second == old(second);
      if state.None? || state.value.checkpoint != expected || |state.value.frames| >= MAX_RECORDS {
        SizeOf(first, journal);
        return;
      }
      SizeOf(first, journal);
      SizeOf(second, journal);
      if fault == Encryption || length == 0 || length > MAX_CIPHERTEXT {
        return;
      }
      var file := NewFile(expected, Cipher(intent, length, nonce));
      if state.value.size + file.size > MAX_BYTES || fault == DiskReserve || fault == FirstCopy {
        return;
      }
      FrameFits(expected.sequence + 1, length);
      AgreedFrames();
      r := WriteFrame(file, fault);
    }

    /** The writes of an append: the first copy, the second copy, the checkpoint. */
    method WriteFrame(file: File, fault: Fault) returns (r: Outcome)
      requires Agreed() && |first.files| == |second.files| < MAX_RECORDS
      requires |first.files| + first.others < MAX_RECORDS + 16 && |second.files| + second.others < MAX_RECORDS + 16
      requires file.size <= MAX_FILE && Bytes(Frames(first)) + file.size <= MAX_BYTES
      requires file.body.Frame? && file.body.cipher.length > 0 && file.body.journal == journal
      requires file.body.sequence == |first.files| + 1 && file.body.previous == HeadOf(journal, Frames(first))
      modifies this`first, this`second, this`saved
      ensures Frames(first) == old(Frames(first)) + [file] && first != old(first)
      ensures if fault == SecondCopy then second == old(second) else Frames(second) == Frames(first)
      ensures saved == if fault in {SecondCopy, SaveCheckpoint} then old(saved)
                       else Some(CheckpointOf(journal, Frames(first)))
      ensures Agreed() <==> fault !in {SecondCopy, SaveCheckpoint}
      ensures r == if fault in {SecondCopy, SaveCheckpoint, CheckpointSync} then Refused
                   else Appended(CheckpointOf(journal, Frames(first)))
    {
      hide Accepted, Frames, Bytes, HeadOf, Numbered;
      r := Refused;
      AgreedFrames();
      Written(first, journal, file);
      Written(second, journal, file);
      var n := file.body.sequence;
      first := first.(files := first.files[n := file]);
      if fault == SecondCopy {
        return;
      }
      second := second.(files := second.files[n := file]);
      if fault == SaveCheckpoint {
        return;
      }
      var next := Checkpoint(journal, n, Sha(file));
      saved := Some(next);
      if fault != CheckpointSync {
        r := Appended(next);
      }
    }

    static lemma SizeOf(d: Dir, id: nat)
      ensures Accepted(d, id) ==> |Frames(d)| == |d.files|
    {
    }

    /** `readLifecycleJournal`: against a trusted checkpoint, every intent and the head of every
        prefix of the history. */
    method ReadJournal(expected: Checkpoint) returns (r: Option<Recovered>)
      ensures r.Some? <==> Agreed() && saved == Some(expected) && NoConflict(IntentsOf(Frames(first)))
      ensures r.Some? ==>
                && r.value.checkpoint == expected && OnePerUser(r.value.intents)
                && (forall x :: x in r.value.intents <==> x in IntentsOf(Frames(first)))
                && |r.value.heads| == expected.sequence + 1
                && forall i :: 0 <= i <= expected.sequence && i <= |Frames(first)| ==>
                   r.value.heads[i] == HeadOf(journal, Frames(first)[..i])
    {
      hide IntentsOf, NoConflict, OnePerUser, Accepted, HeadOf;
      var state := Pair();
      SizeOf(first, journal);
      if state.None? || state.value.checkpoint != expected {
        return None;
      }
      var frames := state.value.frames;
      var intents := OncePerUser(IntentsOf(frames));
      if intents.None? {
        return None;
      }
      var heads := HeadsOf(journal, frames);
      return Some(Recovered(expected, intents.value, heads));
    }

    /** A lock directory is one more entry of its root, and changes nothing else. */
    static lemma WithLock(d: Dir, id: nat)
      ensures var locked := d.(others := d.others + 1);
        && Frames(locked) == Frames(d)
        && (Accepted(locked, id) <==> Accepted(d, id) && |d.files| + d.others < MAX_RECORDS + 16)
    {
    }

    /** Writing the next frame file of an accepted copy makes it the longer accepted copy. */
    static lemma Written(d: Dir, id: nat, file: File)
      requires Accepted(d, id) && |d.files| + d.others < MAX_RECORDS + 16 && |d.files| < MAX_RECORDS
      requires file.size <= MAX_FILE && Bytes(Frames(d)) + file.size <= MAX_BYTES
      requires file.body.Frame? && file.body.cipher.length > 0 && file.body.journal == id
      requires file.body.sequence == |d.files| + 1 && file.body.previous == HeadOf(id, Frames(d))
      ensures var after := d.(files := d.files[|d.files| + 1 := file]);
        && Accepted(after, id) && Frames(after) == Frames(d) + [file] && after != d
        && CheckpointOf(id, Frames(after)) == Checkpoint(id, |d.files| + 1, Sha(file))
    {
      ChainExtends(id, Frames(d), file);
      DirExtends(d, file);
    }
  }

  lemma Named(dir: Dir)
    requires Numbered(dir)
    ensures forall i :: 1 <= i <= |dir.files| ==> i in dir.files
  {
  }
}
