// One call of `logdb_txn_commit` from beginning to end: what it does when nobody
// interferes, how it ends when something fails, and how often it publishes.
module CommitCalls {
  import opened Bytes
  import opened Layout
  import opened CommitProtocol
  import opened CommitLocks
  import opened CommitRefinement
  import opened CommitTheorems
  import opened SearchSpec
  import opened CommitSearch

  // --------------------------------------------------------- left alone

  /** The next step of the call, as long as nothing fails. */
  function CallTurn(th: Thread, t: nat): Action {
    match th.pc
    case Write => WriteChunk(t, if th.done < |th.txn| then |th.txn| - th.done else 1)
    case SyncDb => SyncDatabase(t)
    case Publish => WriteEntry(t)
    case SyncLog => SyncLogFile(t, true)
    case DropRecord => FreeRecord(t)
    case DropSlot => FreeSlot(t)
    case pc => Turn(pc, t)
  }

  predicate CanGoOn(s: State, t: nat) {
    t in s.threads && !s.threads[t].pc.Idle? && Enabled(s, CallTurn(s.threads[t], t))
  }

  /** Thread `t` after `steps` steps of its own, or fewer if its call has ended. */
  function Alone(s: State, t: nat, steps: nat): State
    decreases steps
  {
    if steps == 0 || !CanGoOn(s, t) then s else Alone(Next(s, CallTurn(s.threads[t], t)), t, steps - 1)
  }

  /** The first `k` of these steps lead to `s'`. */
  ghost predicate Comes(s: State, s': State, t: nat, k: nat) {
    forall n: nat :: Alone(s, t, k + n) == Alone(s', t, n)
  }

  lemma OneTurn(s: State, t: nat, s': State)
    requires CanGoOn(s, t) && s' == Next(s, CallTurn(s.threads[t], t))
    ensures Comes(s, s', t, 1)
  {
    hide Next, CanGoOn;
    forall n: nat ensures Alone(s, t, 1 + n) == Alone(s', t, n) {}
  }

  lemma ComesOn(s: State, s1: State, s2: State, t: nat, k: nat, l: nat)
    requires Comes(s, s1, t, k) && Comes(s1, s2, t, l)
    ensures Comes(s, s2, t, k + l)
  {
    hide Alone;
    forall n: nat ensures Alone(s, t, (k + l) + n) == Alone(s2, t, n) {
      assert Alone(s, t, k + (l + n)) == Alone(s1, t, l + n);
    }
  }

  lemma ComesToEnd(s: State, s': State, t: nat, k: nat, steps: nat)
    requires Comes(s, s', t, k) && At(s', t, Idle) && k <= steps
    ensures Alone(s, t, steps) == s'
  {
    assert Alone(s, t, k + (steps - k)) == Alone(s', t, steps - k) == s';
  }

  /** The walk, from where it stands. */
  lemma {:induction false} LooksAlone(s: State, t: nat, th: Thread) returns (k: nat, th': Thread)
    requires At(s, t, Look) && th == s.threads[t] && th.visited <= MAX_WALK && th.index <= |s.log|
    ensures k <= 1 + MAX_WALK - th.visited && Comes(s, Put(s, t, th'), t, k)
    ensures var c := WalkFrom(s.log, |th.txn|, th.index, th.visited);
            if c.Chosen?
            then th' == th.(pc := TakeSlot, index := c.index, visited := c.visited, start := s.log[c.index])
            else th' == th.(pc := Extend, index := th'.index, visited := th'.visited)
    decreases MAX_WALK - th.visited
  {
    hide Alone, Comes;
    k, th' := 1, LookThread(s, th);
    var s1 := Put(s, t, th');
    OneTurn(s, t, s1);
    if th'.pc.Look? {
      var k1, th1 := LooksAlone(s1, t, th');
      assert Put(s1, t, th1) == Put(s, t, th1);
      ComesOn(s, s1, Put(s, t, th1), t, 1, k1);
      k, th' := 1 + k1, th1;
    }
  }

  predicate WithinFour(log: seq<nat>, size: nat, k: nat) {
    k < |log| && |log| - 4 <= k && log[k] + size <= 65536
  }

  /** The newest of the last four entries that has room, or a new one. */
  ghost predicate IsTarget(log: seq<nat>, size: nat, i: nat) {
    if exists k: nat :: WithinFour(log, size, k) then
      WithinFour(log, size, i) && forall k: nat :: WithinFour(log, size, k) ==> k <= i
    else i == |log|
  }

  /** In numbers: a fresh walk finds the newest of the last four entries that has
      room, and looks at no other. */
  lemma NewestOfFour(log: seq<nat>, size: nat)
    ensures var c := Hop(log, size, 0);
            && IsTarget(log, size, if c.Chosen? then c.index else |log|)
            && (c.Chosen? <==> exists k: nat :: WithinFour(log, size, k))
            && (c.Chosen? ==> c.visited == |log| - c.index)
  {
    var c := Hop(log, size, 0);
    if c.Chosen? {
      assert WithinFour(log, size, c.index);
      forall k: nat | WithinFour(log, size, k) ensures k <= c.index { assert RoomAt(log, k, size); }
    } else {
      forall k: nat ensures !WithinFour(log, size, k) { assert RoomAt(log, k, size) ==> k < |log| - 4; }
    }
  }

  /** The log with section `i`, which may be a new one. */
  function LogWith(log: seq<nat>, i: nat): seq<nat> {
    if i < |log| then log else log + [0]
  }

  function StoreWith(store: seq<seq<Txn>>, i: nat): seq<seq<Txn>> {
    if i < |store| then store else store + [[]]
  }

  /** Walk, and append if there is no room. */
  lemma SearchesAlone(s: State, t: nat, th: Thread) returns (k: nat, i: nat, s': State)
    requires At(s, t, Walk) && th == s.threads[t] && th.visited == 0 && |s.log| == |s.store| < MAX_SECTIONS
    ensures k <= 8 && Comes(s, s', t, k) && i <= |s.log| && IsTarget(s.log, |th.txn|, i)
    ensures At(s', t, TakeSlot) && s'.threads == s.threads[t := s'.threads[t]]
    ensures s'.threads[t] == th.(pc := TakeSlot, index := i, visited := s'.threads[t].visited,
                                 start := LogWith(s.log, i)[i])
    ensures s' == s.(log := LogWith(s.log, i), store := StoreWith(s.store, i), position := s'.position,
                     threads := s'.threads)
  {
    hide Comes, IsTarget, WalkFrom, WithinFour;
    NewestOfFour(s.log, |th.txn|);
    var s1 := Walking(s, t);
    OneTurn(s, t, s1);
    var k2, th2 := LooksAlone(s1, t, s1.threads[t]);
    var s2 := Put(s1, t, th2);
    ComesOn(s, s1, s2, t, 1, k2);
    if th2.pc.TakeSlot? {
      k, i, s' := 1 + k2, th2.index, s2;
    } else {
      s' := ExtendsAlone(s2, t, th2);
      ComesOn(s, s2, s', t, 1 + k2, 2);
      k, i := 1 + k2 + 2, |s.log|;
    }
    assert s'.threads == s.threads[t := s'.threads[t]];
  }

  lemma ExtendsAlone(s: State, t: nat, th: Thread) returns (s': State)
    requires At(s, t, Extend) && th == s.threads[t] && |s.log| < MAX_SECTIONS
    ensures Comes(s, s', t, 2)
    ensures s' == s.(log := s.log + [0], store := s.store + [[]], position := s'.position, threads := s'.threads)
    ensures s'.threads == s.threads[t := th.(pc := TakeSlot, index := |s.log|, start := 0, visited := 1)]
  {
    hide Comes;
    var s1 := Next(s, AppendEntry(t));
    OneTurn(s, t, s1);
    assert s1.threads[t] == th.(pc := Locate);
    s' := Next(s1, FindAppended(t));
    OneTurn(s1, t, s');
    ComesOn(s, s1, s', t, 1, 1);
  }

  /** Both locks are free, and the section has room. */
  lemma LocksAlone(s: State, t: nat, th: Thread) returns (s': State)
    requires At(s, t, TakeSlot) && th == s.threads[t] && HasRoom(s, th) && !Blocked(s, th.proc, th.index)
    ensures Comes(s, s', t, 3)
    ensures s' == s.(slots := s.slots[(th.proc, th.index) := -1], records := s.records[th.index := th.proc],
                     threads := s.threads[t := th.(pc := Write, done := 0, held := th.held + {th.index})])
  {
    hide Comes, Next, Enabled;
    var s1 := TakesSlotAlone(s, t, th);
    var s2 := TakesRecordAlone(s1, t, s1.threads[t]);
    ComesOn(s, s1, s2, t, 1, 1);
    s' := ChecksAlone(s2, t, s2.threads[t]);
    ComesOn(s, s2, s', t, 2, 1);
  }

  lemma TakesSlotAlone(s: State, t: nat, th: Thread) returns (s': State)
    requires At(s, t, TakeSlot) && th == s.threads[t] && Slot(s, th.proc, th.index) == 0
    ensures Comes(s, s', t, 1)
    ensures s' == s.(slots := s.slots[(th.proc, th.index) := -1], threads := s.threads[t := th.(pc := TakeRecord)])
  {
    hide Comes;
    s' := Next(s, TrySlot(t));
    OneTurn(s, t, s');
  }

  lemma TakesRecordAlone(s: State, t: nat, th: Thread) returns (s': State)
    requires At(s, t, TakeRecord) && th == s.threads[t]
    requires th.index in s.records ==> s.records[th.index] == th.proc
    ensures Comes(s, s', t, 1)
    ensures s' == s.(records := s.records[th.index := th.proc],
                     threads := s.threads[t := th.(pc := Recheck, held := th.held + {th.index})])
  {
    hide Comes;
    s' := Next(s, TryRecord(t));
    OneTurn(s, t, s');
  }

  lemma ChecksAlone(s: State, t: nat, th: Thread) returns (s': State)
    requires At(s, t, Recheck) && th == s.threads[t] && HasRoom(s, th)
    ensures Comes(s, s', t, 1)
    ensures s' == Put(s, t, th.(pc := Write, done := 0))
  {
    hide Comes;
    s' := Next(s, CheckAgain(t));
    OneTurn(s, t, s');
  }

  /** Write, sync, entry, sync. */
  lemma WritesAlone(s: State, t: nat, th: Thread) returns (s': State)
    requires At(s, t, Write) && th == s.threads[t] && th.done == 0 && |th.txn| > 0
    requires th.index < |s.log| == |s.store| <= |s.db|
    ensures Comes(s, s', t, 4)
    ensures var log := s.log[th.index := StoredLength(th.start + |th.txn|)];
            var store := s.store[th.index := s.store[th.index] + [th.txn]];
            var db := s.db[th.index := Patch(s.db[th.index], th.start, th.txn)];
            s' == s.(log := log, durableLog := log, store := store, durableStore := store, db := db, durableDb := db,
                     threads := s.threads[t := th.(pc := DropRecord, done := |th.txn|)])
  {
    hide Comes, Patch, StoredLength, Next, Enabled;
    var s1 := WritesAndSyncs(s, t, th);
    var s2 := PublishesAndSyncs(s1, t, s1.threads[t]);
    ComesOn(s, s1, s2, t, 2, 2);
    s' := s2;
  }

  lemma WritesAndSyncs(s: State, t: nat, th: Thread) returns (s': State)
    requires At(s, t, Write) && th == s.threads[t] && th.done == 0 && |th.txn| > 0 && th.index < |s.db|
    ensures Comes(s, s', t, 2)
    ensures var db := s.db[th.index := Patch(s.db[th.index], th.start, th.txn)];
            s' == s.(db := db, durableDb := db, threads := s.threads[t := th.(pc := Publish, done := |th.txn|)])
  {
    hide Comes, Patch, Next, Enabled;
    var s1 := WritesChunk(s, t, th);
    s' := SyncsDatabase(s1, t, s1.threads[t]);
    ComesOn(s, s1, s', t, 1, 1);
  }

  lemma WritesChunk(s: State, t: nat, th: Thread) returns (s': State)
    requires At(s, t, Write) && th == s.threads[t] && th.done == 0 && |th.txn| > 0 && th.index < |s.db|
    ensures Comes(s, s', t, 1)
    ensures s' == s.(db := s.db[th.index := Patch(s.db[th.index], th.start, th.txn)],
                     threads := s.threads[t := th.(pc := SyncDb, done := |th.txn|)])
  {
    hide Comes, Patch;
    assert th.txn[0..|th.txn|] == th.txn;
    s' := Next(s, WriteChunk(t, |th.txn|));
    OneTurn(s, t, s');
  }

  lemma SyncsDatabase(s: State, t: nat, th: Thread) returns (s': State)
    requires At(s, t, SyncDb) && th == s.threads[t]
    ensures Comes(s, s', t, 1) && s' == s.(durableDb := s.db, threads := s.threads[t := th.(pc := Publish)])
  {
    hide Comes;
    s' := Next(s, SyncDatabase(t));
    OneTurn(s, t, s');
  }

  lemma PublishesAndSyncs(s: State, t: nat, th: Thread) returns (s': State)
    requires At(s, t, Publish) && th == s.threads[t] && th.index < |s.log| == |s.store|
    ensures Comes(s, s', t, 2)
    ensures var log := s.log[th.index := StoredLength(th.start + th.done)];
            var store := s.store[th.index := s.store[th.index] + [th.txn]];
            s' == s.(log := log, durableLog := log, store := store, durableStore := store,
                     threads := s.threads[t := th.(pc := DropRecord)])
  {
    hide Comes, StoredLength, Next, Enabled;
    var s1 := WritesEntry(s, t, th);
    s' := SyncsLog(s1, t, s1.threads[t]);
    ComesOn(s, s1, s', t, 1, 1);
  }

  lemma WritesEntry(s: State, t: nat, th: Thread) returns (s': State)
    requires At(s, t, Publish) && th == s.threads[t] && th.index < |s.log| == |s.store|
    ensures Comes(s, s', t, 1)
    ensures s' == s.(log := s.log[th.index := StoredLength(th.start + th.done)],
                     store := s.store[th.index := s.store[th.index] + [th.txn]],
                     threads := s.threads[t := th.(pc := SyncLog)])
  {
    hide Comes, StoredLength;
    s' := Next(s, WriteEntry(t));
    OneTurn(s, t, s');
  }

  lemma SyncsLog(s: State, t: nat, th: Thread) returns (s': State)
    requires At(s, t, SyncLog) && th == s.threads[t]
    ensures Comes(s, s', t, 1)
    ensures s' == s.(durableLog := s.log, durableStore := s.store, threads := s.threads[t := th.(pc := DropRecord)])
  {
    hide Comes;
    s' := Next(s, SyncLogFile(t, true));
    OneTurn(s, t, s');
  }

  /** `logdb_lease_release`. */
  lemma ReleasesAlone(s: State, t: nat, th: Thread) returns (s': State)
    requires At(s, t, DropRecord) && th == s.threads[t]
    ensures Comes(s, s', t, 2)
    ensures s' == s.(records := s.records - {th.index},
                     slots := s.slots[(th.proc, th.index) := Slot(s, th.proc, th.index) + 1],
                     threads := s.threads[t := th.(pc := Idle, held := th.held - {th.index})])
  {
    hide Comes, Next, Enabled;
    var s1 := FreesRecord(s, t, th);
    s' := FreesSlot(s1, t, s1.threads[t]);
    ComesOn(s, s1, s', t, 1, 1);
    assert Slot(s1, th.proc, th.index) == Slot(s, th.proc, th.index);
  }

  lemma FreesRecord(s: State, t: nat, th: Thread) returns (s': State)
    requires At(s, t, DropRecord) && th == s.threads[t]
    ensures Comes(s, s', t, 1)
    ensures s' == s.(records := s.records - {th.index},
                     threads := s.threads[t := th.(pc := DropSlot, held := th.held - {th.index})])
  {
    hide Comes;
    s' := Next(s, FreeRecord(t));
    OneTurn(s, t, s');
  }

  lemma FreesSlot(s: State, t: nat, th: Thread) returns (s': State)
    requires At(s, t, DropSlot) && th == s.threads[t]
    ensures Comes(s, s', t, 1)
    ensures s' == s.(slots := s.slots[(th.proc, th.index) := Slot(s, th.proc, th.index) + 1],
                     threads := s.threads[t := th.(pc := Idle)])
  {
    hide Comes;
    s' := Next(s, FreeSlot(t));
    OneTurn(s, t, s');
  }

  /** The section with the transaction behind its first `len` bytes. */
  function WithTxn(section: seq<byte>, len: nat, txn: Txn): seq<byte>
    requires len + |txn| <= |section|
  {
    section[..len] + txn + section[len + |txn|..]
  }

  /** One transaction went to section `i`, everything is synced, and the call of
      thread `t` has ended with all locks as they were. */
  ghost predicate CommitDone(s: State, s': State, t: nat, proc: nat, txn: Txn, i: nat)
    requires |s.log| == |s.store| < |s.db| && i <= |s.log| && LogWith(s.log, i)[i] + |txn| <= |s.db[i]|
  {
    && var log, store := LogWith(s.log, i), StoreWith(s.store, i);
    && s'.log == s'.durableLog == log[i := (log[i] + |txn|) % 65536]
    && s'.store == s'.durableStore == store[i := store[i] + [txn]]
    && s'.db == s'.durableDb == s.db[i := WithTxn(s.db[i], log[i], txn)]
    && t in s'.threads && s'.threads == s.threads[t := s'.threads[t]]
    && s'.threads[t].pc.Idle? && s'.threads[t].proc == proc
    && s'.threads[t].held == (if t in s.threads then s.threads[t].held else {})
    && s'.records == s.records && forall p: nat, j: nat :: Slot(s', p, j) == Slot(s, p, j)
  }

  /** Nobody has an entry locked that process `proc` may want. */
  ghost predicate NoneLocked(s: State, proc: nat) {
    forall i: nat :: i <= |s.log| ==> Slot(s, proc, i) == 0 && i !in s.records
  }

  /** From the choice of a section to the end of the call. */
  lemma LeasesAlone(s: State, t: nat, th: Thread) returns (s': State)
    requires At(s, t, TakeSlot) && th == s.threads[t] && HasRoom(s, th) && !Blocked(s, th.proc, th.index)
    requires |th.txn| > 0 && |s.log| == |s.store| <= |s.db|
    ensures Comes(s, s', t, 9)
    ensures var log := s.log[th.index := StoredLength(th.start + |th.txn|)];
            var store := s.store[th.index := s.store[th.index] + [th.txn]];
            var db := s.db[th.index := Patch(s.db[th.index], th.start, th.txn)];
            s' == s.(log := log, durableLog := log, store := store, durableStore := store, db := db, durableDb := db,
                     slots := s.slots[(th.proc, th.index) := -1][(th.proc, th.index) := 0],
                     records := s.records[th.index := th.proc] - {th.index}, threads := s'.threads)
    ensures s'.threads == s.threads[t := th.(pc := Idle, done := |th.txn|, held := th.held + {th.index} - {th.index})]
  {
    hide Comes, Patch, StoredLength, HasRoom, Blocked, Next, Enabled;
    var s1 := LocksAlone(s, t, th);
    RoomIsThere(s, th);
    var s2 := WritesAlone(s1, t, s1.threads[t]);
    ComesOn(s, s1, s2, t, 3, 4);
    s' := ReleasesAlone(s2, t, s2.threads[t]);
    ComesOn(s, s2, s', t, 7, 2);
    assert Slot(s2, th.proc, th.index) == -1;
  }

  lemma RoomIsThere(s: State, th: Thread)
    requires HasRoom(s, th)
    ensures th.index < |s.log|
  {
  }

  /** What one commit does when nobody has anything locked and nothing fails: the
      newest of the last four sections that has room, or a new one, gets the
      transaction behind what it holds, on disk as well; all locks are given back. */
  lemma CommitAlone(s: State, t: nat, proc: nat, txn: Txn) returns (i: nat)
    requires Bounds(s) && LockInv(s) && |s.log| < MAX_SECTIONS && Enabled(s, Begin(t, proc, txn)) && NoneLocked(s, proc)
    ensures i <= |s.log| && IsTarget(s.log, |txn|, i)
    ensures |s.log| == |s.store| < |s.db| && LogWith(s.log, i)[i] + |txn| <= |s.db[i]|
    ensures CommitDone(s, Alone(Next(s, Begin(t, proc, txn)), t, 20), t, proc, txn, i)
  {
    hide Comes, IsTarget, Alone, Bounds, Blocked, LockInv, NoneLocked, CommitDone;
    var s0 := Next(s, Begin(t, proc, txn));
    SizesOf(s);
    var k, j, s1 := SearchesAlone(s0, t, s0.threads[t]);
    i := j;
    TargetHasRoom(s.log, |txn|, i);
    FreeFor(s, s1, proc, i);
    var s2 := LeasesAlone(s1, t, s1.threads[t]);
    ComesOn(s0, s1, s2, t, k, 9);
    ComesToEnd(s0, s2, t, k + 9, 20);
    HeldIsLocked(s, t, i);
    LocksAsBefore(s, s2, proc, i);
    IsDone(s, s2, t, proc, txn, i, s2.threads[t]);
  }

  lemma IsDone(s: State, s': State, t: nat, proc: nat, txn: Txn, i: nat, th: Thread)
    requires |s.log| == |s.store| < |s.db| && i <= |s.log| && LogWith(s.log, i)[i] + |txn| <= |s.db[i]|
    requires th.pc.Idle? && th.proc == proc && s'.threads == s.threads[t := th]
    requires var held := if t in s.threads then s.threads[t].held else {};
             th.held == held + {i} - {i} && i !in held
    requires var log, store := LogWith(s.log, i), StoreWith(s.store, i);
             && s'.log == s'.durableLog == log[i := StoredLength(log[i] + |txn|)]
             && s'.store == s'.durableStore == store[i := store[i] + [txn]]
             && s'.db == s'.durableDb == s.db[i := Patch(s.db[i], log[i], txn)]
    requires s'.records == s.records && forall p: nat, j: nat :: Slot(s', p, j) == Slot(s, p, j)
    ensures CommitDone(s, s', t, proc, txn, i)
  {
  }

  lemma SizesOf(s: State)
    requires Bounds(s)
    ensures |s.db| == MAX_SECTIONS && |s.log| == |s.store| <= MAX_SECTIONS
    ensures forall i :: 0 <= i < MAX_SECTIONS ==> |s.db[i]| == SECTION_SIZE
  {
  }

  lemma TargetHasRoom(log: seq<nat>, size: nat, i: nat)
    requires IsTarget(log, size, i) && i <= |log| && size <= SECTION_SIZE
    ensures LogWith(log, i)[i] + size <= SECTION_SIZE
  {
  }

  lemma FreeFor(s: State, s1: State, proc: nat, i: nat)
    requires NoneLocked(s, proc) && i <= |s.log| && s1.slots == s.slots && s1.records == s.records
    ensures !Blocked(s1, proc, i) && i !in s.records && Slot(s, proc, i) == 0
  {
    assert Slot(s1, proc, i) == Slot(s, proc, i);
  }

  lemma HeldIsLocked(s: State, t: nat, i: nat)
    requires LockInv(s) && i !in s.records
    ensures t in s.threads ==> i !in s.threads[t].held
  {
    if t in s.threads { assert ThreadLocks(s, s.threads[t]); }
  }

  lemma LocksAsBefore(s: State, s4: State, proc: nat, i: nat)
    requires Slot(s, proc, i) == 0 && i !in s.records
    requires s4.slots == s.slots[(proc, i) := -1][(proc, i) := 0] && s4.records == s.records[i := proc] - {i}
    ensures s4.records == s.records && forall p: nat, j: nat :: Slot(s4, p, j) == Slot(s, p, j)
  {
    forall p: nat, j: nat ensures Slot(s4, p, j) == Slot(s, p, j) {}
  }

  // ----------------------------------------------------------- the ends

  /** The thread's call has ended. Of its locks, it has given back the one it worked
      under, if there is one, and nothing else has changed. */
  ghost predicate Over(s: State, s': State, t: nat, leased: bool)
    requires t in s.threads
  {
    var th := s.threads[t];
    && t in s'.threads && s' == s.(slots := s'.slots, records := s'.records, threads := s.threads[t := s'.threads[t]])
    && s'.threads[t].pc.Idle? && s'.threads[t].held == (if leased then th.held - {th.index} else th.held)
    && s'.records == (if leased then s.records - {th.index} else s.records)
    && forall p: nat, j: nat :: Slot(s', p, j) == if leased && p == th.proc && j == th.index then 0 else Slot(s, p, j)
  }

  /** However a call fails, it ends with the lease given back, and nothing is
      committed: before it has a lease, in a write or sync of the transaction, in the
      write of the entry. */
  lemma FailedCallEnds(s: State, t: nat)
    requires LockInv(s) && Enabled(s, Fail(t))
    ensures Over(s, Alone(Next(s, Fail(t)), t, 2), t, Leased(s.threads[t].pc))
  {
    hide Alone, Comes, LockInv;
    var s1 := Next(s, Fail(t));
    LocksOf(s, t);
    if Leased(s.threads[t].pc) {
      Released(s, s1, t, s1.threads[t]);
    } else {
      assert Alone(s1, t, 2) == s1 by { Stops(s1, t, 2); }
    }
  }

  /** A sync of the log that fails makes no difference to the end of the call. */
  lemma SyncedCallEnds(s: State, t: nat, ok: bool)
    requires LockInv(s) && Enabled(s, SyncLogFile(t, ok))
    ensures Over(LogSynced(s, ok), Alone(Next(s, SyncLogFile(t, ok)), t, 2), t, true)
  {
    hide Alone, Comes, LockInv;
    LocksOf(s, t);
    Released(LogSynced(s, ok), Next(s, SyncLogFile(t, ok)), t, s.threads[t].(pc := DropRecord));
  }

  lemma Stops(s: State, t: nat, steps: nat)
    requires At(s, t, Idle)
    ensures Alone(s, t, steps) == s
  {
  }

  lemma Released(s: State, s1: State, t: nat, th: Thread)
    requires t in s.threads && ThreadLocks(s, s.threads[t]) && Leased(s.threads[t].pc)
    requires th == s.threads[t].(pc := DropRecord) && s1 == Put(s, t, th)
    ensures Over(s, Alone(s1, t, 2), t, true)
  {
    hide Comes;
    var s' := ReleasesAlone(s1, t, th);
    ComesToEnd(s1, s', t, 2, 2);
    assert Owns(s.threads[t], th.index) && Slot(s1, th.proc, th.index) == -1;
    forall p: nat, j: nat ensures Slot(s', p, j) == if p == th.proc && j == th.index then 0 else Slot(s, p, j) {}
  }

  /** With its process the locks of a thread go, those that it has abandoned too. */
  lemma CrashFrees(s: State, t: nat, i: nat)
    requires LockInv(s) && t in s.threads && i in s.threads[t].held
    ensures var s' := Next(s, Crash(s.threads[t].proc));
            && i !in s'.records && (forall u :: u in s'.threads ==> i !in s'.threads[u].held)
            && (forall j: nat :: Slot(s', s.threads[t].proc, j) == 0)
            && (forall u :: u in s'.threads <==> u in s.threads && s.threads[u].proc != s.threads[t].proc)
            && s'.log == s.log && s'.store == s.store
  {
    var s' := Next(s, Crash(s.threads[t].proc));
    assert Owns(s.threads[t], i) && ThreadLocks(s, s.threads[t]);
    forall u | u in s'.threads ensures i !in s'.threads[u].held {
      assert ThreadLocks(s, s.threads[u]);
    }
  }

  /** After a power failure the transaction whose log sync is due is there exactly
      if the operating system had written its entry back by itself. */
  lemma UnsyncedSurvivesExactlyIfWritten(s: State, t: nat, i: nat, written: State)
    requires Data(s) && At(s, t, SyncLog) && i == s.threads[t].index
    requires i < |s.log| ==> written == Next(s, BackgroundEntry(i))
    ensures i < |s.log|
    ensures var s' := PowerFailureStep(s);
            (i < |s'.store| && s'.store[i] == s.store[i]) <==> (i < |s.durableLog| && s.durableLog[i] == s.log[i])
    ensures i < |PowerFailureStep(written).store| && PowerFailureStep(written).store[i] == s.store[i]
  {
    hide Data;
    LastIsCommitted(s, t, i);
  }

  lemma LastIsCommitted(s: State, t: nat, i: nat)
    requires Data(s) && At(s, t, SyncLog) && i == s.threads[t].index
    ensures i < |s.log| == |s.store| && |s.durableLog| == |s.durableStore|
    ensures i < |s.durableLog| ==> (s.durableLog[i] == s.log[i] <==> s.durableStore[i] == s.store[i])
  {
    hide LockInv;
    assert ThreadBounds(s, s.threads[t]) && IsLast(s, s.threads[t]) && SectionData(s, i);
    assert |Committed(s, i)| == s.log[i];
    if i < |s.durableLog| {
      assert DurableData(s, i);
      LastMatters(s.durableStore[i], s.store[i]);
    }
  }

  lemma LastMatters(part: seq<Txn>, all: seq<Txn>)
    requires part <= all && all != [] && |all[|all| - 1]| > 0
    ensures |Flatten(part)| == |Flatten(all)| <==> part == all
  {
    if part != all {
      var front := all[..|all| - 1];
      assert all == front + [all[|all| - 1]] && part <= front;
      FlattenAppend(front, all[|all| - 1]);
      FlattenPrefix(part, front);
    }
  }

  /** Bytes of a transaction may be on the disk long before its entry is. Then a power
      failure leaves them in the section, and nothing of the transaction in the store. */
  lemma TornWriteLeavesNoTrace(s: State, t: nat, th: Thread, n: nat, s1: State, back: Action)
    requires Data(s) && Enabled(s, WriteChunk(t, n)) && th == s.threads[t] && s1 == Next(s, WriteChunk(t, n))
    requires back == BackgroundBytes(th.index, th.start, th.start + th.done + n)
    ensures Enabled(s1, back)
    ensures var s' := PowerFailureStep(Next(s1, back));
            && s'.log == s.durableLog && s'.store == s.durableStore
            && th.index < |s'.db| && th.start + |th.txn| <= |s'.db[th.index]|
            && s'.db[th.index][th.start + th.done..th.start + th.done + n] == th.txn[th.done..th.done + n]
  {
    hide Data, Patch;
    ChunkIsThere(s, t, th, n);
    assert s1.db == Written(s, th, n).db;
  }

  lemma ChunkIsThere(s: State, t: nat, th: Thread, n: nat)
    requires Data(s) && Enabled(s, WriteChunk(t, n)) && th == s.threads[t]
    ensures var db := Written(s, th, n).db; var from, to := th.start + th.done, th.start + th.done + n;
            && th.index < |s.db| == |db| == |s.durableDb| == MAX_SECTIONS && th.start + |th.txn| <= SECTION_SIZE
            && |db[th.index]| == |s.durableDb[th.index]| == SECTION_SIZE
            && db[th.index][from..to] == th.txn[th.done..th.done + n]
            && Patch(s.durableDb[th.index], th.start, db[th.index][th.start..to])[from..to]
               == th.txn[th.done..th.done + n]
  {
    hide LockInv, Contents;
    assert ThreadBounds(s, th);
    var section, from, to := Written(s, th, n).db[th.index], th.start + th.done, th.start + th.done + n;
    var patched := Patch(s.durableDb[th.index], th.start, section[th.start..to]);
    assert patched[th.start..to] == section[th.start..to];
    assert patched[from..to] == patched[th.start..to][th.done..] == section[th.start..to][th.done..];
    assert section[th.start..to][th.done..] == section[from..to];
  }

  // ----------------------------------------------------- once and no more

  function Begins(actions: seq<Action>, t: nat): nat {
    if actions == [] then 0
    else (if actions[0].Begin? && actions[0].t == t then 1 else 0) + Begins(actions[1..], t)
  }

  function EntriesWritten(actions: seq<Action>, t: nat): nat {
    if actions == [] then 0
    else (if actions[0].WriteEntry? && actions[0].t == t then 1 else 0) + EntriesWritten(actions[1..], t)
  }

  /** The thread is in a call that has not published yet. */
  function Pending(s: State, t: nat): nat {
    if t !in s.threads then 0
    else
      var pc := s.threads[t].pc;
      if pc.Idle? || pc.SyncLog? || pc.DropRecord? || pc.DropSlot? then 0 else 1
  }

  predicate CutsShort(a: Action, t: nat) {
    a == Fail(t) || a.Crash? || a.PowerFailure?
  }

  lemma OnceStep(s: State, a: Action, t: nat)
    requires Enabled(s, a)
    ensures EntriesWritten([a], t) + Pending(Next(s, a), t) <= Begins([a], t) + Pending(s, t)
    ensures !CutsShort(a, t) ==>
              EntriesWritten([a], t) + Pending(Next(s, a), t) == Begins([a], t) + Pending(s, t)
  {
    assert [a][1..] == [];
    if !a.Crash? && !a.BackgroundEntry? && !a.BackgroundBytes? && !a.PowerFailure? && a.t == t {
      OwnOnce(s, a);
    } else if t in s.threads && !a.PowerFailure? && a != Crash(s.threads[t].proc) {
      OthersStay(s, a, t);
    } else {
      StaysAway(s, a, t);
    }
  }

  lemma OwnOnce(s: State, a: Action)
    requires Enabled(s, a) && !a.Crash? && !a.BackgroundEntry? && !a.BackgroundBytes? && !a.PowerFailure?
    ensures var entry, begin := if a.WriteEntry? then 1 else 0, if a.Begin? then 1 else 0;
            && entry + Pending(Next(s, a), a.t) <= begin + Pending(s, a.t)
            && (!a.Fail? ==> entry + Pending(Next(s, a), a.t) == begin + Pending(s, a.t))
  {
    hide Slot, HasRoom, Patch, StoredLength;
  }

  lemma StaysAway(s: State, a: Action, t: nat)
    requires Enabled(s, a) && (t !in s.threads || a.PowerFailure? || a == Crash(s.threads[t].proc))
    requires !a.Crash? && !a.BackgroundEntry? && !a.BackgroundBytes? && !a.PowerFailure? ==> a.t != t
    ensures t !in Next(s, a).threads
  {
    hide Slot, HasRoom, Patch, StoredLength, Reach;
  }

  /** In every run each call publishes at most once, and exactly once by its end
      unless it fails or its process does. */
  lemma {:induction false} EachCallPublishesOnce(s: State, actions: seq<Action>, t: nat)
    requires IsRun(s, actions)
    ensures EntriesWritten(actions, t) + Pending(After(s, actions), t) <= Begins(actions, t) + Pending(s, t)
    ensures (forall k :: 0 <= k < |actions| ==> !CutsShort(actions[k], t)) ==>
              EntriesWritten(actions, t) + Pending(After(s, actions), t) == Begins(actions, t) + Pending(s, t)
    decreases |actions|
  {
    hide Next, Enabled, Pending;
    if actions != [] {
      OnceStep(s, actions[0], t);
      assert [actions[0]][1..] == [];
      EachCallPublishesOnce(Next(s, actions[0]), actions[1..], t);
    }
  }
}
