// The commit protocol against the abstract store: one sequence of transactions
// per section, extended by one transaction per commit.
module CommitRefinement {
  import opened Bytes
  import opened Layout
  import opened CommitProtocol
  import opened CommitLocks

  /** What the log says is valid in section `i`. */
  function Committed(s: State, i: nat): seq<byte>
    requires Shape(s) && i < |s.log|
  {
    s.db[i][..s.log[i]]
  }

  /** What the log says after a power failure. */
  function DurablyCommitted(s: State, i: nat): seq<byte>
    requires Shape(s) && i < |s.durableLog|
  {
    s.durableDb[i][..s.durableLog[i]]
  }

  predicate Shape(s: State) {
    && |s.db| == |s.durableDb| == MAX_SECTIONS
    && (forall i :: 0 <= i < MAX_SECTIONS ==> |s.db[i]| == |s.durableDb[i]| == SECTION_SIZE)
    && |s.durableLog| == |s.durableStore| <= |s.log| == |s.store| <= MAX_SECTIONS
    && (forall i :: 0 <= i < |s.log| ==> s.log[i] < SECTION_SIZE)
    && (forall i :: 0 <= i < |s.durableLog| ==> s.durableLog[i] < SECTION_SIZE)
  }

  /** Both images of the files decode to the abstract store. */
  predicate Refines(s: State) {
    && Shape(s)
    && (forall i :: 0 <= i < |s.log| ==> Committed(s, i) == Flatten(s.store[i]))
    && (forall i :: 0 <= i < |s.durableLog| ==> DurablyCommitted(s, i) == Flatten(s.durableStore[i]))
  }

  // ------------------------------------------------- bounds of the search

  predicate Searching(pc: Pc) {
    pc.Idle? || pc.Walk? || pc.Look? || pc.Extend? || pc.Locate?
  }

  predicate ThreadBounds(s: State, th: Thread) {
    && th.visited <= MAX_WALK
    && 0 < |th.txn| <= SECTION_SIZE
    && (th.pc.Walk? ==> th.visited <= |s.log|)
    && (th.pc.Look? ==> th.index + th.visited <= |s.log|)
    && (th.pc.Locate? ==> th.proc in s.position && 1 <= s.position[th.proc])
    && (!Searching(th.pc) ==> th.index < |s.log| && th.start + |th.txn| <= SECTION_SIZE && th.visited <= |s.log|)
    && (th.pc.Write? ==> th.done < |th.txn|)
    && (th.pc.SyncDb? || th.pc.Publish? ==> th.done == |th.txn|)
  }

  predicate Bounds(s: State) {
    && Shape(s)
    && (forall p :: p in s.position ==> s.position[p] <= |s.log|)
    && (forall t :: t in s.threads ==> ThreadBounds(s, s.threads[t]))
  }

  lemma BoundsPut(s: State, s1: State, t: nat, th': Thread)
    requires Bounds(s) && Shape(s1) && ThreadBounds(s1, th')
    requires s1.threads == s.threads && |s.log| <= |s1.log|
    requires forall p :: p in s1.position ==> s1.position[p] <= |s1.log|
    requires forall p :: p in s.position ==> p in s1.position && s.position[p] <= s1.position[p]
    ensures Bounds(Put(s1, t, th'))
  {
    var s' := Put(s1, t, th');
    forall u | u in s'.threads ensures ThreadBounds(s', s'.threads[u]) {
      if u != t { assert ThreadBounds(s, s.threads[u]); }
    }
  }

  lemma BeginBounds(s: State, t: nat, proc: nat, txn: Txn)
    requires Bounds(s) && Enabled(s, Begin(t, proc, txn))
    ensures Bounds(Put(s, t, BeginThread(s, t, proc, txn)))
  {
    BoundsPut(s, s, t, BeginThread(s, t, proc, txn));
  }

  lemma FindEndBounds(s: State, t: nat)
    requires Bounds(s) && At(s, t, Walk)
    ensures Bounds(Put(SetPosition(s, s.threads[t].proc, |s.log|), t, FindEndThread(s, s.threads[t])))
  {
    assert ThreadBounds(s, s.threads[t]);
    BoundsPut(s, SetPosition(s, s.threads[t].proc, |s.log|), t, FindEndThread(s, s.threads[t]));
  }

  lemma LookBounds(s: State, t: nat)
    requires Bounds(s) && At(s, t, Look)
    ensures Bounds(Put(s, t, LookThread(s, s.threads[t])))
  {
    assert ThreadBounds(s, s.threads[t]);
    BoundsPut(s, s, t, LookThread(s, s.threads[t]));
  }

  lemma LocateBounds(s: State, t: nat)
    requires Bounds(s) && At(s, t, Locate)
    ensures Bounds(Put(s, t, LocateThread(s, s.threads[t])))
  {
    assert ThreadBounds(s, s.threads[t]);
    BoundsPut(s, s, t, LocateThread(s, s.threads[t]));
  }

  lemma AppendBounds(s: State, t: nat)
    requires Bounds(s) && At(s, t, Extend) && |s.log| < MAX_SECTIONS
    ensures Bounds(Put(Extended(s, s.threads[t].proc), t, s.threads[t].(pc := Locate)))
  {
    assert ThreadBounds(s, s.threads[t]);
    var s1 := Extended(s, s.threads[t].proc);
    assert Shape(s1);
    BoundsPut(s, s1, t, s.threads[t].(pc := Locate));
  }

  /** A step of the locks moves thread `t` and leaves the log alone. */
  lemma LockBounds(s: State, s1: State, t: nat, th': Thread)
    requires Bounds(s) && t in s.threads && !Searching(s.threads[t].pc)
    requires s1.threads == s.threads && s1.position == s.position && s1.log == s.log && s1.db == s.db
    requires s1.durableDb == s.durableDb && s1.durableLog == s.durableLog && s1.store == s.store
    requires s1.durableStore == s.durableStore
    requires th' == s.threads[t].(pc := th'.pc, held := th'.held)
    requires !th'.pc.Look? && !th'.pc.Locate? && !Writing(th'.pc)
    ensures Bounds(Put(s1, t, th'))
  {
    assert ThreadBounds(s, s.threads[t]);
    BoundsPut(s, s1, t, th');
  }

  lemma TakeSlotBounds(s: State, t: nat)
    requires Bounds(s) && At(s, t, TakeSlot)
    ensures Bounds(TakeSlotStep(s, t))
  {
    hide Bounds;
    var th := s.threads[t];
    if Slot(s, th.proc, th.index) == 0 {
      LockBounds(s, s.(slots := s.slots[(th.proc, th.index) := -1]), t, th.(pc := TakeRecord));
    } else {
      LockBounds(s, s, t, th.(pc := Walk));
    }
  }

  lemma TakeRecordBounds(s: State, t: nat)
    requires Bounds(s) && At(s, t, TakeRecord)
    ensures Bounds(TakeRecordStep(s, t))
  {
    hide Bounds;
    var th := s.threads[t];
    if th.index in s.records && s.records[th.index] != th.proc {
      LockBounds(s, s, t, th.(pc := GiveBack));
    } else {
      LockBounds(s, s.(records := s.records[th.index := th.proc]), t,
                 th.(pc := Recheck, held := th.held + {th.index}));
    }
  }

  lemma FreeRecordBounds(s: State, t: nat)
    requires Bounds(s) && At(s, t, DropRecord)
    ensures Bounds(FreeRecordStep(s, t))
  {
    hide Bounds;
    var th := s.threads[t];
    LockBounds(s, s.(records := s.records - {th.index}), t, th.(pc := DropSlot, held := th.held - {th.index}));
  }

  lemma FreeSlotBounds(s: State, t: nat, pc: Pc)
    requires Bounds(s) && t in s.threads && !Searching(s.threads[t].pc) && (pc.Walk? || pc.Idle?)
    ensures Bounds(FreeSlotStep(s, t, pc))
  {
    hide Bounds;
    var th := s.threads[t];
    LockBounds(s, s.(slots := s.slots[(th.proc, th.index) := Slot(s, th.proc, th.index) + 1]), t, th.(pc := pc));
  }

  lemma WriteBounds(s: State, t: nat, n: nat)
    requires Bounds(s) && At(s, t, Write) && 0 < n <= |s.threads[t].txn| - s.threads[t].done
    ensures Bounds(Put(Written(s, s.threads[t], n), t, WriteThread(s.threads[t], n)))
  {
    assert ThreadBounds(s, s.threads[t]);
    var s1 := Written(s, s.threads[t], n);
    assert Shape(s1);
    BoundsPut(s, s1, t, WriteThread(s.threads[t], n));
  }

  lemma PublishBounds(s: State, t: nat)
    requires Bounds(s) && At(s, t, Publish)
    ensures Bounds(Put(Published(s, s.threads[t]), t, s.threads[t].(pc := SyncLog)))
  {
    assert ThreadBounds(s, s.threads[t]);
    var s1 := Published(s, s.threads[t]);
    assert Shape(s1);
    BoundsPut(s, s1, t, s.threads[t].(pc := SyncLog));
  }

  lemma RecheckBounds(s: State, t: nat)
    requires Bounds(s) && At(s, t, Recheck)
    ensures Bounds(Put(s, t, RecheckThread(s, s.threads[t])))
  {
    assert ThreadBounds(s, s.threads[t]);
    BoundsPut(s, s, t, RecheckThread(s, s.threads[t]));
  }

  lemma SyncBounds(s: State, t: nat)
    requires Bounds(s) && At(s, t, SyncDb)
    ensures Bounds(Put(s.(durableDb := s.db), t, s.threads[t].(pc := Publish)))
  {
    assert ThreadBounds(s, s.threads[t]);
    BoundsPut(s, s.(durableDb := s.db), t, s.threads[t].(pc := Publish));
  }

  lemma SyncLogBounds(s: State, t: nat, ok: bool)
    requires Bounds(s) && At(s, t, SyncLog)
    ensures Bounds(Put(LogSynced(s, ok), t, s.threads[t].(pc := DropRecord)))
  {
    assert ThreadBounds(s, s.threads[t]);
    BoundsPut(s, LogSynced(s, ok), t, s.threads[t].(pc := DropRecord));
  }

  lemma FailBounds(s: State, t: nat)
    requires Bounds(s) && t in s.threads && CanFail(s.threads[t].pc)
    ensures Bounds(Put(s, t, FailThread(s.threads[t])))
  {
    assert ThreadBounds(s, s.threads[t]);
    BoundsPut(s, s, t, FailThread(s.threads[t]));
  }

  lemma WriteBackBounds(s: State, a: Action)
    requires Bounds(s) && Enabled(s, a) && (a.BackgroundEntry? || a.BackgroundBytes?)
    ensures Bounds(Next(s, a))
  {
    hide Patch, Reach;
    var s' := Next(s, a);
    assert Shape(s');
    forall u | u in s'.threads ensures ThreadBounds(s', s'.threads[u]) { assert ThreadBounds(s, s.threads[u]); }
  }

  lemma EndBounds(s: State, a: Action)
    requires Bounds(s) && Enabled(s, a) && (a.Crash? || a.PowerFailure?)
    ensures Bounds(Next(s, a))
  {
    var s' := Next(s, a);
    forall u | u in s'.threads ensures ThreadBounds(s', s'.threads[u]) { assert ThreadBounds(s, s.threads[u]); }
  }

  /** The backward search of the code never underflows, reads existing entries
      only, and looks at no more than four of them per pass. */
  lemma BoundsStep(s: State, a: Action)
    requires Bounds(s) && Enabled(s, a)
    ensures Bounds(Next(s, a))
  {
    hide Bounds, TakeSlotStep, TakeRecordStep, FreeRecordStep, FreeSlotStep;
    match a
    case Begin(t, proc, txn) => BeginBounds(s, t, proc, txn);
    case FindEnd(t) => FindEndBounds(s, t);
    case LookBack(t) => LookBounds(s, t);
    case AppendEntry(t) => AppendBounds(s, t);
    case FindAppended(t) => LocateBounds(s, t);
    case CheckAgain(t) => RecheckBounds(s, t);
    case WriteChunk(t, n) => WriteBounds(s, t, n);
    case SyncDatabase(t) => SyncBounds(s, t);
    case WriteEntry(t) => PublishBounds(s, t);
    case SyncLogFile(t, ok) => SyncLogBounds(s, t, ok);
    case Fail(t) => FailBounds(s, t);
    case TrySlot(t) => TakeSlotBounds(s, t);
    case TryRecord(t) => TakeRecordBounds(s, t);
    case ReturnSlot(t) => FreeSlotBounds(s, t, Walk);
    case FreeRecord(t) => FreeRecordBounds(s, t);
    case FreeSlot(t) => FreeSlotBounds(s, t, Idle);
    case BackgroundEntry(index) => WriteBackBounds(s, a);
    case BackgroundBytes(index, lo, hi) => WriteBackBounds(s, a);
    case Crash(proc) => EndBounds(s, a);
    case PowerFailure => EndBounds(s, a);
  }

  // ------------------------------------------------------- data invariant

  /** The lease starts at the length read again under the locks and ends
      before the section does. The code checks neither. */
  predicate FreshLease(s: State, th: Thread) {
    th.index < |s.log| && th.start == s.log[th.index] && th.start + |th.txn| < SECTION_SIZE
  }

  predicate Writing(pc: Pc) {
    pc.Write? || pc.SyncDb? || pc.Publish?
  }

  predicate LeaseData(s: State, th: Thread)
    requires Shape(s)
  {
    Writing(th.pc) ==>
      && FreshLease(s, th) && th.done <= |th.txn|
      && s.db[th.index][th.start..th.start + th.done] == th.txn[..th.done]
      && (th.pc.Publish? ==> s.durableDb[th.index][th.start..th.start + th.done] == th.txn)
  }

  /** Durable before visible, and the decoding of the volatile image. */
  predicate SectionData(s: State, i: nat)
    requires Shape(s) && i < |s.log|
  {
    && Committed(s, i) == Flatten(s.store[i])
    && s.durableDb[i][..s.log[i]] == Committed(s, i)
  }

  predicate DurableData(s: State, i: nat)
    requires Shape(s) && i < |s.durableLog|
  {
    s.durableStore[i] <= s.store[i] && |Flatten(s.durableStore[i])| == s.durableLog[i]
  }

  predicate Contents(s: State) {
    && Shape(s)
    && (forall i :: 0 <= i < |s.log| ==> SectionData(s, i))
    && (forall i :: 0 <= i < |s.durableLog| ==> DurableData(s, i))
    && (forall t :: t in s.threads ==> LeaseData(s, s.threads[t]))
  }

  /** What a thread published is the last transaction of its section until it unlocks. */
  predicate Recorded(s: State) {
    forall t :: t in s.threads && s.threads[t].pc.SyncLog? ==> IsLast(s, s.threads[t])
  }

  predicate IsLast(s: State, th: Thread) {
    th.index < |s.store| && s.store[th.index] != [] && s.store[th.index][|s.store[th.index]| - 1] == th.txn
  }

  ghost predicate Data(s: State) {
    Bounds(s) && LockInv(s) && Contents(s) && Recorded(s)
  }

  /** The grant of a stale or section-filling lease is the one step to exclude. */
  predicate Guarded(s: State, a: Action)
    requires Enabled(s, a)
  {
    a.CheckAgain? && HasRoom(s, s.threads[a.t]) ==> FreshLease(s, s.threads[a.t])
  }

  lemma DataQuiet(s: State, s': State)
    requires Contents(s)
    requires s'.log == s.log && s'.db == s.db && s'.durableDb == s.durableDb && s'.store == s.store
    requires s'.durableLog == s.durableLog && s'.durableStore == s.durableStore
    requires forall t :: t in s'.threads && (t !in s.threads || s'.threads[t] != s.threads[t])
               ==> Shape(s') && LeaseData(s', s'.threads[t])
    ensures Contents(s')
  {
    forall i | 0 <= i < |s'.log| ensures SectionData(s', i) { assert SectionData(s, i); }
    forall i | 0 <= i < |s'.durableLog| ensures DurableData(s', i) { assert DurableData(s, i); }
    forall t | t in s'.threads ensures LeaseData(s', s'.threads[t]) {
      if t in s.threads && s'.threads[t] == s.threads[t] { assert LeaseData(s, s.threads[t]); }
    }
  }

  /** Two threads that write hold leases of different sections. */
  lemma WritersApart(s: State, t: nat, u: nat)
    requires LockInv(s) && t in s.threads && u in s.threads && t != u
    requires Leased(s.threads[t].pc) && Leased(s.threads[u].pc)
    ensures s.threads[t].index != s.threads[u].index
  {
    var a, b := s.threads[t], s.threads[u];
    assert ThreadLocks(s, a) && ThreadLocks(s, b);
    if a.index == b.index { assert Owns(a, a.index) && Owns(b, a.index); }
  }

  lemma AppendData(s: State, s': State, t: nat)
    requires Data(s) && At(s, t, Extend) && |s.log| < MAX_SECTIONS
    requires s' == Put(Extended(s, s.threads[t].proc), t, s.threads[t].(pc := Locate)) && Shape(s')
    ensures Contents(s')
  {
    hide LockInv, Recorded;
    forall i | 0 <= i < |s'.log| ensures SectionData(s', i) {
      if i < |s.log| { assert SectionData(s, i); }
    }
    forall i | 0 <= i < |s'.durableLog| ensures DurableData(s', i) { assert DurableData(s, i); }
    forall u | u in s'.threads ensures LeaseData(s', s'.threads[u]) {
      if u != t { assert LeaseData(s, s.threads[u]); }
    }
  }

  /** A chunk goes above the committed bytes of one section. */
  lemma SectionsSurviveWrite(s: State, th: Thread, n: nat)
    requires Data(s) && LeaseData(s, th) && Writing(th.pc)
    requires th.done + n <= |th.txn|
    ensures Shape(Written(s, th, n))
    ensures forall i :: 0 <= i < |s.log| ==> SectionData(Written(s, th, n), i)
  {
    hide LockInv, Recorded;
    var s1 := Written(s, th, n);
    var before, after := s.db[th.index], s1.db[th.index];
    assert after[..th.start] == after[..th.start + th.done][..th.start]
                             == before[..th.start + th.done][..th.start] == before[..th.start];
    forall i | 0 <= i < |s.log| ensures SectionData(s1, i) { assert SectionData(s, i); }
  }

  lemma LeaseSurvivesWrite(s: State, s1: State, th: Thread, n: nat, other: Thread)
    requires Shape(s) && Shape(s1) && th.done + n <= |th.txn| && s1 == Written(s, th, n)
    requires LeaseData(s, other) && (Writing(other.pc) ==> other.index != th.index)
    ensures LeaseData(s1, other)
  {
  }

  lemma WriteLeases(s: State, t: nat, n: nat)
    requires Data(s) && At(s, t, Write) && 0 < n <= |s.threads[t].txn| - s.threads[t].done
    requires LeaseData(s, s.threads[t]) && Shape(Written(s, s.threads[t], n))
    ensures forall u :: u in s.threads && u != t ==> LeaseData(Written(s, s.threads[t], n), s.threads[u])
    ensures LeaseData(Written(s, s.threads[t], n), WriteThread(s.threads[t], n))
  {
    hide LockInv, Recorded;
    var th := s.threads[t];
    var s1 := Written(s, th, n);
    forall u | u in s.threads && u != t ensures LeaseData(s1, s.threads[u]) {
      assert LeaseData(s, s.threads[u]);
      if Writing(s.threads[u].pc) { WritersApart(s, t, u); }
      LeaseSurvivesWrite(s, s1, th, n, s.threads[u]);
    }
    WrittenSoFar(s.db[th.index], s1.db[th.index], th.txn, th.start, th.done, n);
  }

  lemma WriteData(s: State, s': State, t: nat, n: nat)
    requires Data(s) && At(s, t, Write) && 0 < n <= |s.threads[t].txn| - s.threads[t].done
    requires s' == Put(Written(s, s.threads[t], n), t, WriteThread(s.threads[t], n)) && Shape(s')
    ensures Contents(s')
  {
    hide LockInv, Recorded;
    var th := s.threads[t];
    var s1 := Written(s, th, n);
    assert LeaseData(s, th) && ThreadBounds(s, th);
    SectionsSurviveWrite(s, th, n);
    forall i | 0 <= i < |s'.log| ensures SectionData(s', i) { assert SectionData(s1, i); }
    forall i | 0 <= i < |s'.durableLog| ensures DurableData(s', i) { assert DurableData(s, i); }
    WriteLeases(s, t, n);
    forall u | u in s'.threads ensures LeaseData(s', s'.threads[u]) {
      assert LeaseData(s1, s'.threads[u]);
    }
  }

  lemma WrittenSoFar(before: seq<byte>, after: seq<byte>, txn: Txn, start: nat, done: nat, n: nat)
    requires start + done + n <= |before| && done + n <= |txn|
    requires before[start..start + done] == txn[..done]
    requires after == Patch(before, start + done, txn[done..done + n])
    ensures after[start..start + done + n] == txn[..done + n]
  {
    assert after[start..start + done] == after[..start + done][start..] == before[start..start + done];
    assert after[start..start + done + n] == after[start..start + done] + after[start + done..start + done + n];
    assert txn[..done + n] == txn[..done] + txn[done..done + n];
  }

  lemma SyncData(s: State, s': State, t: nat)
    requires Data(s) && At(s, t, SyncDb)
    requires s' == Put(s.(durableDb := s.db), t, s.threads[t].(pc := Publish)) && Shape(s')
    ensures Contents(s')
  {
    hide LockInv, Recorded;
    forall i | 0 <= i < |s'.log| ensures SectionData(s', i) { assert SectionData(s, i); }
    forall i | 0 <= i < |s'.durableLog| ensures DurableData(s', i) { assert DurableData(s, i); }
    forall u | u in s'.threads ensures LeaseData(s', s'.threads[u]) {
      assert LeaseData(s, s.threads[u]) && ThreadBounds(s, s.threads[u]);
      if u != t && s.threads[u].pc.Publish? { assert s.threads[u].txn[..s.threads[u].done] == s.threads[u].txn; }
    }
  }

  /** The entry write is the atomic append. */
  lemma PublishedSection(s: State, th: Thread)
    requires Data(s) && LeaseData(s, th) && ThreadBounds(s, th) && th.pc.Publish?
    ensures Shape(Published(s, th))
    ensures SectionData(Published(s, th), th.index)
    ensures Published(s, th).log[th.index] == s.log[th.index] + |th.txn|
  {
    hide LockInv, Recorded;
    var s1 := Published(s, th);
    assert SectionData(s, th.index);
    var end := th.start + |th.txn|;
    var section, durable := s.db[th.index], s.durableDb[th.index];
    assert th.txn[..th.done] == th.txn;
    assert section[..end] == section[..th.start] + section[th.start..end];
    assert durable[..end] == durable[..th.start] + durable[th.start..end];
    FlattenAppend(s.store[th.index], th.txn);
  }

  lemma PublishData(s: State, s': State, t: nat)
    requires Data(s) && At(s, t, Publish)
    requires s' == Put(Published(s, s.threads[t]), t, s.threads[t].(pc := SyncLog)) && Shape(s')
    ensures Contents(s')
  {
    hide LockInv, Recorded;
    var th := s.threads[t];
    var s1 := Published(s, th);
    assert LeaseData(s, th) && ThreadBounds(s, th);
    PublishedSection(s, th);
    forall i | 0 <= i < |s'.log| ensures SectionData(s', i) {
      if i == th.index { assert SectionData(s1, i); } else { assert SectionData(s, i); }
    }
    forall i | 0 <= i < |s'.durableLog| ensures DurableData(s', i) {
      assert DurableData(s, i);
    }
    forall u | u in s'.threads ensures LeaseData(s', s'.threads[u]) {
      if u != t {
        assert LeaseData(s, s.threads[u]);
        if Writing(s.threads[u].pc) { WritersApart(s, t, u); }
      }
    }
  }

  lemma SyncLogData(s: State, s': State, t: nat, ok: bool)
    requires Data(s) && At(s, t, SyncLog)
    requires s' == Put(LogSynced(s, ok), t, s.threads[t].(pc := DropRecord)) && Shape(s')
    ensures Contents(s')
  {
    hide LockInv, Recorded;
    forall i | 0 <= i < |s'.log| ensures SectionData(s', i) { assert SectionData(s, i); }
    forall i | 0 <= i < |s'.durableLog| ensures DurableData(s', i) {
      if ok { assert SectionData(s, i); } else { assert DurableData(s, i); }
    }
    forall u | u in s'.threads ensures LeaseData(s', s'.threads[u]) {
      if u != t { assert LeaseData(s, s.threads[u]); }
    }
  }

  lemma BackgroundEntryData(s: State, s': State, index: nat)
    requires Data(s) && index < |s.log|
    requires s' == BackgroundEntryStep(s, index) && Shape(s')
    ensures Contents(s')
  {
    hide LockInv, Recorded;
    assert SectionData(s, index);
    forall i | 0 <= i < |s'.log| ensures SectionData(s', i) { assert SectionData(s, i); }
    forall i | 0 <= i < |s'.durableLog| ensures DurableData(s', i) {
      if i < |s.durableLog| { assert DurableData(s, i); }
    }
    forall u | u in s'.threads ensures LeaseData(s', s'.threads[u]) { assert LeaseData(s, s.threads[u]); }
  }

  lemma PatchFromSame(durable: seq<byte>, section: seq<byte>, lo: nat, hi: nat, from: nat, to: nat)
    requires |durable| == |section| && lo <= hi <= |section| && from <= to <= |section|
    requires durable[from..to] == section[from..to]
    ensures Patch(durable, lo, section[lo..hi])[from..to] == section[from..to]
  {
    var r := Patch(durable, lo, section[lo..hi]);
    forall k | from <= k < to ensures r[k] == section[k] {
      assert durable[k] == durable[from..to][k - from] == section[from..to][k - from] == section[k];
      if lo <= k < hi { assert r[k] == r[lo..lo + |section[lo..hi]|][k - lo] == section[k]; }
    }
  }

  /** Writing back what the section holds already brings the durable image closer. */
  lemma BackgroundSection(s: State, s': State, index: nat, lo: nat, hi: nat, i: nat)
    requires Shape(s) && Shape(s') && index < MAX_SECTIONS && lo <= hi <= SECTION_SIZE
    requires s' == BackgroundBytesStep(s, index, lo, hi) && i < |s.log| && SectionData(s, i)
    ensures SectionData(s', i)
  {
    hide Flatten, Patch;
    if i == index {
      assert s.durableDb[i][0..s.log[i]] == s.db[i][0..s.log[i]];
      PatchFromSame(s.durableDb[i], s.db[i], lo, hi, 0, s.log[i]);
    }
  }

  lemma BackgroundLease(s: State, s': State, index: nat, lo: nat, hi: nat, th: Thread)
    requires Shape(s) && Shape(s') && index < MAX_SECTIONS && lo <= hi <= SECTION_SIZE
    requires s' == BackgroundBytesStep(s, index, lo, hi) && LeaseData(s, th) && ThreadBounds(s, th)
    ensures LeaseData(s', th)
  {
    hide Patch;
    if th.pc.Publish? && th.index == index {
      assert th.txn[..th.done] == th.txn;
      PatchFromSame(s.durableDb[index], s.db[index], lo, hi, th.start, th.start + th.done);
    }
  }

  lemma BackgroundBytesData(s: State, s': State, index: nat, lo: nat, hi: nat)
    requires Data(s) && index < MAX_SECTIONS && lo <= hi <= SECTION_SIZE
    requires s' == BackgroundBytesStep(s, index, lo, hi) && Shape(s')
    ensures Contents(s')
  {
    hide LockInv, Recorded, SectionData, LeaseData, ThreadBounds, Patch;
    forall i | 0 <= i < |s'.log| ensures SectionData(s', i) { BackgroundSection(s, s', index, lo, hi, i); }
    forall i | 0 <= i < |s'.durableLog| ensures DurableData(s', i) { assert DurableData(s, i); }
    forall u | u in s'.threads ensures LeaseData(s', s'.threads[u]) {
      BackgroundLease(s, s', index, lo, hi, s.threads[u]);
    }
  }

  /** What a power failure leaves behind is a prefix of the published
      transactions of each section, whole ones only. */
  lemma DurablePrefix(s: State, i: nat)
    requires Data(s) && i < |s.durableLog|
    ensures s.durableStore[i] <= s.store[i]
    ensures DurablyCommitted(s, i) == Flatten(s.durableStore[i])
    ensures s.durableLog[i] <= s.log[i]
  {
    hide LockInv, Recorded;
    assert DurableData(s, i) && SectionData(s, i);
    FlattenPrefix(s.durableStore[i], s.store[i]);
    assert s.durableDb[i][..s.durableLog[i]] == s.durableDb[i][..s.log[i]][..s.durableLog[i]];
  }

  lemma PowerFailureData(s: State, s': State)
    requires Data(s) && s' == PowerFailureStep(s) && Shape(s')
    ensures Contents(s')
  {
    hide LockInv, Recorded;
    forall i | 0 <= i < |s'.log| ensures SectionData(s', i) && DurableData(s', i) {
      DurablePrefix(s, i);
      assert DurableData(s, i);
    }
  }

  lemma SearchData(s: State, s': State, t: nat)
    requires Contents(s) && t in s'.threads && !Writing(s'.threads[t].pc)
    requires s'.threads == s.threads[t := s'.threads[t]]
    requires s'.log == s.log && s'.db == s.db && s'.durableDb == s.durableDb && s'.store == s.store
    requires s'.durableLog == s.durableLog && s'.durableStore == s.durableStore
    ensures Contents(s')
  {
    DataQuiet(s, s');
  }

  lemma RecheckData(s: State, s': State, t: nat)
    requires Contents(s) && At(s, t, Recheck) && Guarded(s, CheckAgain(t))
    requires s' == Put(s, t, RecheckThread(s, s.threads[t])) && Shape(s')
    ensures Contents(s')
  {
    assert s.threads[t].txn[..0] == [];
    DataQuiet(s, s');
  }

  lemma CrashData(s: State, s': State, proc: nat)
    requires Contents(s) && s' == CrashStep(s, proc)
    ensures Contents(s')
  {
    DataQuiet(s, s');
  }

  lemma CommitContents(s: State, a: Action)
    requires Data(s) && Enabled(s, a) && Guarded(s, a)
    requires a.AppendEntry? || a.CheckAgain? || a.WriteChunk? || a.SyncDatabase? || a.WriteEntry? || a.SyncLogFile?
    ensures Contents(Next(s, a))
  {
    hide LockInv, Recorded;
    BoundsStep(s, a);
    match a
    case AppendEntry(t) => AppendData(s, Next(s, a), t);
    case CheckAgain(t) => RecheckData(s, Next(s, a), t);
    case WriteChunk(t, n) => WriteData(s, Next(s, a), t, n);
    case SyncDatabase(t) => SyncData(s, Next(s, a), t);
    case WriteEntry(t) => PublishData(s, Next(s, a), t);
    case SyncLogFile(t, ok) => SyncLogData(s, Next(s, a), t, ok);
  }

  lemma EnvironmentContents(s: State, a: Action)
    requires Data(s) && Enabled(s, a)
    requires a.BackgroundEntry? || a.BackgroundBytes? || a.Crash? || a.PowerFailure?
    ensures Contents(Next(s, a))
  {
    hide LockInv, Recorded;
    BoundsStep(s, a);
    match a
    case BackgroundEntry(index) => BackgroundEntryData(s, Next(s, a), index);
    case BackgroundBytes(index, lo, hi) => BackgroundBytesData(s, Next(s, a), index, lo, hi);
    case Crash(proc) => CrashData(s, Next(s, a), proc);
    case PowerFailure => PowerFailureData(s, Next(s, a));
  }

  predicate Local(a: Action) {
    a.Begin? || a.FindEnd? || a.LookBack? || a.FindAppended? || a.TrySlot? || a.TryRecord?
    || a.ReturnSlot? || a.FreeRecord? || a.FreeSlot? || a.Fail?
  }

  lemma LocalContents(s: State, a: Action)
    requires Contents(s) && Enabled(s, a) && Local(a)
    ensures Contents(Next(s, a))
  {
    hide Contents, HasRoom, Slot;
    SearchData(s, Next(s, a), a.t);
  }

  lemma RecordedStep(s: State, a: Action)
    requires Bounds(s) && LockInv(s) && Recorded(s) && Enabled(s, a)
    ensures Recorded(Next(s, a))
  {
    if a.WriteEntry? {
      RecordedPublish(s, a.t);
    } else if a.PowerFailure? {
      assert Next(s, a).threads == map[];
    } else {
      RecordedQuiet(s, a);
    }
  }

  lemma RecordedPublish(s: State, t: nat)
    requires Bounds(s) && LockInv(s) && Recorded(s) && At(s, t, Publish)
    ensures Recorded(Next(s, WriteEntry(t)))
  {
    hide LockInv, Patch, StoredLength;
    var s' := Next(s, WriteEntry(t));
    assert ThreadBounds(s, s.threads[t]);
    forall u | u in s'.threads && s'.threads[u].pc.SyncLog? ensures IsLast(s', s'.threads[u]) {
      if u != t {
        assert IsLast(s, s.threads[u]);
        WritersApart(s, t, u);
      }
    }
  }

  /** No thread gets to this point, and nothing published is touched. */
  predicate NonePublished(s: State, s': State) {
    && s.store <= s'.store
    && forall u :: u in s'.threads && s'.threads[u].pc.SyncLog? ==> u in s.threads && s'.threads[u] == s.threads[u]
  }

  lemma SearchPublishesNothing(s: State, a: Action)
    requires Enabled(s, a)
    requires a.Begin? || a.FindEnd? || a.LookBack? || a.FindAppended? || a.CheckAgain? || a.Fail?
    ensures NonePublished(s, Next(s, a))
  {
    hide HasRoom;
  }

  lemma LocksPublishNothing(s: State, a: Action)
    requires Enabled(s, a) && (a.TrySlot? || a.TryRecord? || a.ReturnSlot? || a.FreeRecord? || a.FreeSlot?)
    ensures NonePublished(s, Next(s, a))
  {
    hide Slot;
  }

  lemma RestPublishesNothing(s: State, a: Action)
    requires Enabled(s, a)
    requires a.AppendEntry? || a.WriteChunk? || a.SyncDatabase? || a.SyncLogFile?
             || a.BackgroundEntry? || a.BackgroundBytes? || a.Crash?
    ensures NonePublished(s, Next(s, a))
  {
    hide Patch, Reach;
  }

  lemma OthersPublishNothing(s: State, a: Action)
    requires Enabled(s, a) && !a.WriteEntry? && !a.PowerFailure?
    ensures NonePublished(s, Next(s, a))
  {
    hide NonePublished, Next, Enabled;
    if a.Begin? || a.FindEnd? || a.LookBack? || a.FindAppended? || a.CheckAgain? || a.Fail? {
      SearchPublishesNothing(s, a);
    } else if a.TrySlot? || a.TryRecord? || a.ReturnSlot? || a.FreeRecord? || a.FreeSlot? {
      LocksPublishNothing(s, a);
    } else {
      RestPublishesNothing(s, a);
    }
  }

  lemma RecordedQuiet(s: State, a: Action)
    requires Recorded(s) && Enabled(s, a) && !a.WriteEntry? && !a.PowerFailure?
    ensures Recorded(Next(s, a))
  {
    hide Next, Enabled;
    OthersPublishNothing(s, a);
    var s' := Next(s, a);
    forall u | u in s'.threads && s'.threads[u].pc.SyncLog? ensures IsLast(s', s'.threads[u]) {
      assert IsLast(s, s.threads[u]);
    }
  }

  /** Every step but an unguarded grant keeps the data invariant. */
  lemma DataStep(s: State, a: Action)
    requires Data(s) && Enabled(s, a) && Guarded(s, a)
    ensures Data(Next(s, a))
  {
    BoundsStep(s, a);
    LockInvStep(s, a);
    RecordedStep(s, a);
    if Local(a) {
      LocalContents(s, a);
    } else if a.BackgroundEntry? || a.BackgroundBytes? || a.Crash? || a.PowerFailure? {
      EnvironmentContents(s, a);
    } else {
      CommitContents(s, a);
    }
  }
}
