// The commit protocol on the files of the recovery machine: while the database is
// open, what its threads write and publish are steps of `Recovery`. So recovery
// finds what they committed, whenever the processes stop.
module CommitRecovery {
  import opened Bytes
  import opened Layout
  import opened FileFormat
  import opened CommitProtocol
  import opened CommitRefinement
  import CommitTheorems
  import CommitLocks
  import R = Recovery
  import P = RecoveryProofs

  // ---------------------------------------------------------------- files

  function ByteAt(db: seq<byte>, at: nat): byte {
    if at < |db| then db[at] else 0
  }

  /** A section as it reads from the file, with zeros behind its end. */
  function SectionBytes(db: seq<byte>, i: nat): (s: seq<byte>)
    ensures |s| == SECTION_SIZE
    ensures forall k :: 0 <= k < SECTION_SIZE ==> s[k] == ByteAt(db, SectionStart(i) + k)
  {
    seq<byte>(SECTION_SIZE, k requires 0 <= k < SECTION_SIZE => ByteAt(db, SectionStart(i) + k))
  }

  /** The committed bytes, section by section. */
  function Stored(c: State): (r: Store)
    requires Shape(c)
    ensures |r| == |c.log|
    ensures forall i :: 0 <= i < |c.log| ==> r[i] == Committed(c, i)
  {
    seq(|c.log|, i requires 0 <= i < |c.log| => Committed(c, i))
  }

  predicate FileHas(c: State, db: seq<byte>) {
    |c.db| == MAX_SECTIONS && forall i :: 0 <= i < MAX_SECTIONS ==> c.db[i] == SectionBytes(db, i)
  }

  /** What a thread has written is in the file, zeros included. */
  predicate OnFile(c: State, db: seq<byte>) {
    forall t :: t in c.threads ==> ThreadWritten(c.threads[t], db)
  }

  predicate ThreadWritten(th: Thread, db: seq<byte>) {
    Writing(th.pc) && th.done > 0 ==> SectionStart(th.index) + th.start + th.done <= |db|
  }

  /** The files are those of the protocol state. */
  predicate Represents(c: State, f: R.State) {
    && Shape(c) && f.phase.Open? && f.store == Stored(c)
    && FileHas(c, f.db) && OnFile(c, f.db)
  }

  // ---------------------------------------------------------------- steps

  /** What a step of the protocol does to the files. */
  function FilesAfter(f: R.State, c: State, a: Action): R.State
    requires Enabled(c, a) && f.log.Some?
  {
    match a
    case AppendEntry(t) => f.(log := Some(f.log.value + U16(0)), store := f.store + [[]])
    case WriteChunk(t, n) =>
      var th := c.threads[t];
      f.(db := Overwrite(f.db, ConnectionOffset(th.index) + th.start + th.done, th.txn[th.done..th.done + n]))
    case WriteEntry(t) =>
      var th := c.threads[t];
      f.(log := Some(Overwrite(f.log.value, LogOffset(th.index), U16(StoredLength(th.start + th.done)))),
         store := if th.index < |f.store| then f.store[th.index := f.store[th.index] + th.txn] else f.store)
    case _ => f
  }

  /** The same as steps of the recovery machine. */
  function FileActions(c: State, a: Action): seq<R.Action>
    requires Enabled(c, a)
  {
    match a
    case AppendEntry(t) => [R.Extend]
    case WriteChunk(t, n) =>
      var th := c.threads[t];
      [R.WriteSection(th.index, th.start + th.done, th.txn[th.done..th.done + n])]
    case WriteEntry(t) => [R.Publish(c.threads[t].index, c.threads[t].txn)]
    case _ => []
  }

  lemma OneFileAction(f: R.State, a: R.Action)
    requires R.Enabled(f, a)
    ensures R.IsRun(f, [a]) && R.After(f, [a]) == R.Next(f, a)
  {
    assert [a][1..] == [];
    assert R.After(R.Next(f, a), []) == R.Next(f, a);
  }

  lemma ExactOffset(i: nat)
    requires i < MAX_SECTIONS
    ensures ConnectionOffset(i) == SectionStart(i)
  {
    SectionsShareBytes(i, i);
  }

  lemma ByteWritten(db: seq<byte>, at: nat, data: seq<byte>, k: nat)
    ensures ByteAt(Overwrite(db, at, data), k) == if at <= k < at + |data| then data[k - at] else ByteAt(db, k)
  {
    var db' := Overwrite(db, at, data);
    if at <= k < at + |data| { assert db'[at..at + |data|][k - at] == data[k - at]; }
  }

  /** A write to one section. */
  lemma SectionWritten(db: seq<byte>, i: nat, at: nat, data: seq<byte>, j: nat)
    requires at + |data| <= SECTION_SIZE
    ensures var db' := Overwrite(db, SectionStart(i) + at, data);
            SectionBytes(db', j) == if j == i then Patch(SectionBytes(db, i), at, data) else SectionBytes(db, j)
  {
    var db' := Overwrite(db, SectionStart(i) + at, data);
    var after := if j == i then Patch(SectionBytes(db, i), at, data) else SectionBytes(db, j);
    forall k | 0 <= k < SECTION_SIZE ensures SectionBytes(db', j)[k] == after[k] {
      ByteWritten(db, SectionStart(i) + at, data, SectionStart(j) + k);
      if j == i {
        if at <= k < at + |data| { assert after[at..at + |data|][k - at] == data[k - at]; }
      } else {
        SectionsApart(i, j, at, |data|, SectionStart(j) + k);
      }
    }
  }

  /** The step neither writes to a file nor commits. */
  predicate Silent(a: Action) {
    !a.AppendEntry? && !a.WriteChunk? && !a.WriteEntry? && !a.PowerFailure?
  }

  lemma SilentStep(c: State, f: R.State, a: Action)
    requires Data(c) && Represents(c, f) && Enabled(c, a) && Guarded(c, a) && Silent(a)
    ensures Represents(Next(c, a), f)
  {
    hide Data, Next, Enabled, Guarded, FileHas, OnFile, SameOnFile;
    DataStep(c, a);
    DataHasShape(Next(c, a));
    SilentFrame(c, a);
    SameFiles(c, Next(c, a), f.db);
    SameStored(c, Next(c, a));
  }

  lemma SameStored(c: State, c': State)
    requires Shape(c) && Shape(c') && c'.db == c.db && c'.log == c.log
    ensures Stored(c') == Stored(c)
  {
    forall i | 0 <= i < |c.log| ensures Committed(c', i) == Committed(c, i) {}
  }

  lemma SameFiles(c: State, c': State, db: seq<byte>)
    requires SameOnFile(c, c') && FileHas(c, db) && OnFile(c, db)
    ensures FileHas(c', db) && OnFile(c', db)
    ensures c'.db == c.db && c'.log == c.log
  {
    hide SectionBytes;
    forall t | t in c'.threads ensures ThreadWritten(c'.threads[t], db) {
      if t in c.threads { assert ThreadWritten(c.threads[t], db); }
    }
  }

  /** Nothing that the files have to do with changes. */
  predicate SameOnFile(c: State, c': State) {
    && c'.db == c.db && c'.log == c.log && c'.store == c.store
    && forall t :: t in c'.threads && Writing(c'.threads[t].pc) && c'.threads[t].done > 0 ==>
         t in c.threads && SameWritten(c.threads[t], c'.threads[t])
  }

  predicate SameWritten(th: Thread, th': Thread) {
    Writing(th.pc) && th.done == th'.done && th.index == th'.index && th.start == th'.start
  }

  lemma SilentFrame(c: State, a: Action)
    requires Enabled(c, a) && Silent(a)
    ensures SameOnFile(c, Next(c, a))
  {
    hide SameOnFile, Next, Enabled;
    if a.Begin? || a.FindEnd? || a.LookBack? || a.FindAppended? || a.CheckAgain? {
      SilentSearch(c, a);
    } else if a.TrySlot? || a.TryRecord? || a.ReturnSlot? || a.FreeRecord? || a.FreeSlot? {
      SilentLock(c, a);
    } else {
      SilentRest(c, a);
    }
  }

  lemma SilentSearch(c: State, a: Action)
    requires Enabled(c, a) && (a.Begin? || a.FindEnd? || a.LookBack? || a.FindAppended? || a.CheckAgain?)
    ensures SameOnFile(c, Next(c, a))
  {
    hide HasRoom;
  }

  lemma SilentLock(c: State, a: Action)
    requires Enabled(c, a) && (a.TrySlot? || a.TryRecord? || a.ReturnSlot? || a.FreeRecord? || a.FreeSlot?)
    ensures SameOnFile(c, Next(c, a))
  {
    hide SameOnFile, TakeSlotStep, TakeRecordStep, FreeRecordStep, FreeSlotStep;
    match a
    case TrySlot(t) => SilentTake(c, t);
    case TryRecord(t) => SilentTake(c, t);
    case FreeRecord(t) => SilentFree(c, t, Idle);
    case ReturnSlot(t) => SilentFree(c, t, Walk);
    case FreeSlot(t) => SilentFree(c, t, Idle);
  }

  lemma SilentTake(c: State, t: nat)
    ensures At(c, t, TakeSlot) ==> SameOnFile(c, TakeSlotStep(c, t))
    ensures At(c, t, TakeRecord) ==> SameOnFile(c, TakeRecordStep(c, t))
  {
    hide Slot;
  }

  lemma SilentFree(c: State, t: nat, pc: Pc)
    requires t in c.threads && !Writing(pc)
    ensures SameOnFile(c, FreeSlotStep(c, t, pc))
    ensures At(c, t, DropRecord) ==> SameOnFile(c, FreeRecordStep(c, t))
  {
    hide Slot;
  }

  lemma SilentRest(c: State, a: Action)
    requires Enabled(c, a)
    requires a.SyncDatabase? || a.SyncLogFile? || a.Fail? || a.BackgroundEntry? || a.BackgroundBytes? || a.Crash?
    ensures SameOnFile(c, Next(c, a))
  {
    hide Patch;
  }

  // ------------------------------------------------- steps on the files

  /** One step of the recovery machine does this to the files. */
  predicate IsFileStep(c: State, f: R.State, a: Action, op: R.Action) {
    && Enabled(c, a) && f.log.Some? && R.Enabled(f, op)
    && R.Next(f, op) == FilesAfter(f, c, a)
  }

  /** The step is the same on the files as in the recovery machine. */
  ghost predicate Bridged(c: State, f: R.State, a: Action)
    requires Enabled(c, a) && f.log.Some?
  {
    && R.IsRun(f, FileActions(c, a)) && R.After(f, FileActions(c, a)) == FilesAfter(f, c, a)
    && Represents(Next(c, a), FilesAfter(f, c, a))
  }

  lemma ExtendBridge(c: State, f: R.State, t: nat)
    requires Data(c) && Represents(c, f) && f.log.Some?
    requires At(c, t, Extend) && |c.log| + 1 < MAX_SECTIONS
    ensures Bridged(c, f, AppendEntry(t))
  {
    var a, c' := AppendEntry(t), Next(c, AppendEntry(t));
    DataStep(c, a);
    OneFileAction(f, R.Extend);
    forall i | 0 <= i < |c.log| ensures Committed(c', i) == Committed(c, i) {}
    assert Stored(c') == Stored(c) + [[]];
    forall u | u in c'.threads ensures ThreadWritten(c'.threads[u], f.db) {
      assert ThreadWritten(c.threads[u], f.db);
    }
  }

  /** What the invariant says of a thread that writes. */
  lemma WriterFacts(c: State, t: nat, th: Thread)
    requires Data(c) && t in c.threads && th == c.threads[t] && Writing(th.pc)
    ensures th.index < |c.log| < MAX_SECTIONS + 1 && th.start == c.log[th.index] == |Committed(c, th.index)|
    ensures th.start + |th.txn| < SECTION_SIZE && 0 < |th.txn| && th.done <= |th.txn|
    ensures c.db[th.index][th.start..th.start + th.done] == th.txn[..th.done]
  {
    assert ThreadBounds(c, th) && LeaseData(c, th);
  }

  lemma ChunkInSections(c: State, db: seq<byte>, th: Thread, n: nat)
    requires FileHas(c, db)
    requires th.index < MAX_SECTIONS && 0 < n <= |th.txn| - th.done && th.start + |th.txn| <= SECTION_SIZE
    ensures FileHas(Written(c, th, n),
                    Overwrite(db, SectionStart(th.index) + th.start + th.done, th.txn[th.done..th.done + n]))
  {
    hide Patch, SectionBytes, Overwrite, SectionStart;
    var data, at := th.txn[th.done..th.done + n], th.start + th.done;
    var db' := Overwrite(db, SectionStart(th.index) + at, data);
    assert SectionStart(th.index) + at == SectionStart(th.index) + th.start + th.done;
    forall j | 0 <= j < MAX_SECTIONS ensures Written(c, th, n).db[j] == SectionBytes(db', j) {
      SectionWritten(db, th.index, at, data, j);
    }
  }

  lemma ChunkOnFile(c: State, db: seq<byte>, t: nat, th: Thread, n: nat)
    requires At(c, t, Write) && th == c.threads[t] && FileHas(c, db) && OnFile(c, db)
    requires th.index < MAX_SECTIONS && 0 < n <= |th.txn| - th.done && th.start + |th.txn| <= SECTION_SIZE
    ensures var c' := Put(Written(c, th, n), t, WriteThread(th, n));
            var db' := Overwrite(db, SectionStart(th.index) + th.start + th.done, th.txn[th.done..th.done + n]);
            FileHas(c', db') && OnFile(c', db')
  {
    hide Patch, SectionBytes, Overwrite, SectionStart;
    ChunkInSections(c, db, th, n);
    var c' := Put(Written(c, th, n), t, WriteThread(th, n));
    var db' := Overwrite(db, SectionStart(th.index) + th.start + th.done, th.txn[th.done..th.done + n]);
    forall u | u in c'.threads ensures ThreadWritten(c'.threads[u], db') {
      if u != t { assert ThreadWritten(c.threads[u], db); }
    }
  }

  lemma ChunkIsFileAction(c: State, f: R.State, t: nat, n: nat, th: Thread)
    requires Data(c) && Represents(c, f) && f.log.Some? && Enabled(c, WriteChunk(t, n)) && th == c.threads[t]
    ensures IsFileStep(c, f, WriteChunk(t, n),
                       R.WriteSection(th.index, th.start + th.done, th.txn[th.done..th.done + n]))
  {
    hide Data, Overwrite, ConnectionOffset, SectionStart, Committed, FileHas, OnFile;
    DataHasShape(c);
    WriterFacts(c, t, th);
    ExactOffset(th.index);
    assert SectionStart(th.index) + (th.start + th.done) == SectionStart(th.index) + th.start + th.done;
  }

  lemma ChunkKeepsStored(c: State, t: nat, n: nat)
    requires Data(c) && Enabled(c, WriteChunk(t, n))
    ensures var c' := Next(c, WriteChunk(t, n)); Shape(c) && Shape(c') && Stored(c') == Stored(c)
  {
    hide Data, Committed, Enabled;
    ChunkLog(c, t, n);
    DataHasShape(c);
    CommitTheorems.CommitIsAtomicAppend(c, WriteChunk(t, n));
    var c' := Next(c, WriteChunk(t, n));
    DataHasShape(c');
    assert Stored(c') == Stored(c);
  }

  lemma ChunkLog(c: State, t: nat, n: nat)
    requires Enabled(c, WriteChunk(t, n))
    ensures Next(c, WriteChunk(t, n)).log == c.log && Guarded(c, WriteChunk(t, n))
  {
  }

  lemma PublishLog(c: State, t: nat)
    requires At(c, t, Publish)
    ensures |Next(c, WriteEntry(t)).log| == |c.log| && Guarded(c, WriteEntry(t)) && Enabled(c, WriteEntry(t))
  {
    hide StoredLength;
  }

  lemma ChunkFiles(c: State, f: R.State, t: nat, n: nat, th: Thread)
    requires Data(c) && Represents(c, f) && f.log.Some? && Enabled(c, WriteChunk(t, n)) && th == c.threads[t]
    ensures var c', f' := Next(c, WriteChunk(t, n)), FilesAfter(f, c, WriteChunk(t, n));
            f'.phase == f.phase && f'.store == f.store && FileHas(c', f'.db) && OnFile(c', f'.db)
  {
    hide Data, Shape, Overwrite, FileHas, OnFile, ConnectionOffset, SectionStart, Committed, Patch;
    WriterFacts(c, t, th);
    ExactOffset(th.index);
    ChunkOnFile(c, f.db, t, th, n);
  }

  lemma ChunkBridge(c: State, f: R.State, t: nat, n: nat)
    requires Data(c) && Represents(c, f) && f.log.Some? && Enabled(c, WriteChunk(t, n))
    ensures Bridged(c, f, WriteChunk(t, n))
  {
    hide Data, FileHas, OnFile, R.Next, R.Enabled, Next, FilesAfter;
    var th := c.threads[t];
    ChunkIsFileAction(c, f, t, n, th);
    ChunkKeepsStored(c, t, n);
    ChunkFiles(c, f, t, n, th);
    OneFileAction(f, R.WriteSection(th.index, th.start + th.done, th.txn[th.done..th.done + n]));
  }

  lemma DataHasShape(c: State)
    requires Data(c)
    ensures Shape(c)
  {
  }

  /** The transaction is in its place when it is published. */
  lemma InPlace(c: State, f: R.State, t: nat, th: Thread)
    requires Data(c) && Represents(c, f) && At(c, t, Publish) && th == c.threads[t]
    ensures th.index < |f.store| && f.store[th.index] == Committed(c, th.index)
    ensures |f.store[th.index]| == th.start && th.start + |th.txn| < SECTION_SIZE && |th.txn| > 0
    ensures SectionAt(f.db, th.index, f.store[th.index] + th.txn)
  {
    WriterFacts(c, t, th);
    assert ThreadBounds(c, th) && ThreadWritten(th, f.db);
    var end, at := th.start + |th.txn|, SectionStart(th.index);
    var whole := Committed(c, th.index) + th.txn;
    assert c.db[th.index][..end] == c.db[th.index][..th.start] + c.db[th.index][th.start..end] == whole by {
      assert th.txn[..th.done] == th.txn;
    }
    forall k | 0 <= k < end ensures f.db[at + k] == whole[k] {
      assert SectionBytes(f.db, th.index)[k] == c.db[th.index][..end][k];
    }
    assert f.db[at..at + end] == whole;
  }

  lemma FileFacts(c: State, f: R.State)
    requires Represents(c, f)
    ensures f.phase.Open? && Shape(c)
  {
  }

  lemma PublishIsFileAction(c: State, f: R.State, t: nat, th: Thread)
    requires Data(c) && Represents(c, f) && f.log.Some? && At(c, t, Publish) && th == c.threads[t]
    ensures th.index < |f.store| && IsFileStep(c, f, WriteEntry(t), R.Publish(th.index, th.txn))
  {
    hide Data, Represents, Overwrite, SectionAt, Committed;
    DataHasShape(c);
    FileFacts(c, f);
    InPlace(c, f, t, th);
    AllDone(c, t, th);
    StoredLengthExact(th.start + |th.txn|);
  }

  lemma PublishStores(c: State, t: nat, th: Thread)
    requires Data(c) && At(c, t, Publish) && th == c.threads[t]
    ensures var c' := Next(c, WriteEntry(t));
            && Data(c') && Shape(c) && Shape(c') && th.index < |c.log|
            && Stored(c') == Stored(c)[th.index := Committed(c, th.index) + th.txn]
  {
    hide Data, Next, Committed, Enabled, Guarded;
    PublishLog(c, t);
    DataHasShape(c);
    CommitTheorems.CommitIsAtomicAppend(c, WriteEntry(t));
    WriterFacts(c, t, th);
    var c' := Next(c, WriteEntry(t));
    DataHasShape(c');
    assert Stored(c') == Stored(c)[th.index := Committed(c, th.index) + th.txn];
  }

  lemma PublishedOnFile(c: State, db: seq<byte>, t: nat, th: Thread)
    requires At(c, t, Publish) && th == c.threads[t] && FileHas(c, db) && OnFile(c, db)
    ensures var c' := Next(c, WriteEntry(t)); FileHas(c', db) && OnFile(c', db)
  {
    hide SectionBytes, StoredLength;
    var c' := Next(c, WriteEntry(t));
    assert c'.db == c.db && c'.threads == c.threads[t := th.(pc := SyncLog)];
    forall u | u in c'.threads ensures ThreadWritten(c'.threads[u], db) {
      if u != t { assert ThreadWritten(c.threads[u], db); }
    }
  }

  lemma PublishBridge(c: State, f: R.State, t: nat)
    requires Data(c) && Represents(c, f) && f.log.Some? && At(c, t, Publish)
    ensures Bridged(c, f, WriteEntry(t))
  {
    hide Data, Next, FileHas, OnFile, R.Next;
    var th := c.threads[t];
    PublishIsFileAction(c, f, t, th);
    PublishStores(c, t, th);
    PublishedOnFile(c, f.db, t, th);
    OneFileAction(f, R.Publish(th.index, th.txn));
  }

  lemma AllDone(c: State, t: nat, th: Thread)
    requires Data(c) && At(c, t, Publish) && th == c.threads[t]
    ensures th.done == |th.txn|
  {
    assert ThreadBounds(c, th);
  }

  lemma SilentBridge(c: State, f: R.State, a: Action)
    requires Data(c) && Represents(c, f) && f.log.Some?
    requires Enabled(c, a) && Guarded(c, a) && Silent(a)
    ensures Bridged(c, f, a)
  {
    SilentStep(c, f, a);
    assert R.After(f, []) == f;
  }

  /** Every step of the protocol with a fresh grant, whatever its interleaving, is
      a step of the recovery machine on the files, or none. */
  lemma CommitStepsAreFileSteps(c: State, f: R.State, a: Action)
    requires Data(c) && Represents(c, f) && f.log.Some?
    requires Enabled(c, a) && Guarded(c, a) && !a.PowerFailure?
    requires a.AppendEntry? ==> |c.log| + 1 < MAX_SECTIONS
    ensures Bridged(c, f, a)
  {
    hide Bridged, Data, Represents, FilesAfter, FileActions, Next, Guarded;
    match a
    case AppendEntry(t) => ExtendBridge(c, f, t);
    case WriteChunk(t, n) => ChunkBridge(c, f, t, n);
    case WriteEntry(t) => PublishBridge(c, f, t);
    case _ => SilentBridge(c, f, a);
  }

  // ------------------------------------------------ whole lives of a database

  /** The protocol as it starts on files that were just opened. */
  function OnOpen(f: R.State): State {
    var lens := Lens(f.store);
    var db: seq<seq<byte>> := seq(MAX_SECTIONS, i requires 0 <= i < MAX_SECTIONS => SectionBytes(f.db, i));
    var txns: seq<seq<Txn>> :=
      seq(|f.store|, i requires 0 <= i < |f.store| => if f.store[i] == [] then [] else [f.store[i]]);
    State(lens, lens, db, db, map[], map[], map[], map[], txns, txns)
  }

  lemma OnOpenShape(f: R.State)
    requires Covers(f.db, f.store)
    ensures Shape(OnOpen(f))
    ensures forall i :: 0 <= i < |f.store| ==> Committed(OnOpen(f), i) == f.store[i] == Flatten(OnOpen(f).store[i])
  {
    var c := OnOpen(f);
    forall i | 0 <= i < |f.store| ensures Committed(c, i) == f.store[i] == Flatten(c.store[i]) {
      assert SectionAt(f.db, i, f.store[i]);
      SectionRead(f.db, i, f.store[i]);
      assert Flatten([f.store[i]]) == f.store[i] + Flatten([]);
    }
  }

  lemma SectionRead(db: seq<byte>, i: nat, bytes: seq<byte>)
    requires SectionAt(db, i, bytes) && |bytes| < SECTION_SIZE
    ensures SectionBytes(db, i)[..|bytes|] == bytes
  {
    if bytes != [] {
      var at := SectionStart(i);
      forall k | 0 <= k < |bytes| ensures SectionBytes(db, i)[k] == bytes[k] {
        assert db[at..at + |bytes|][k] == db[at + k];
      }
    }
  }

  lemma OnOpenRepresents(f: R.State)
    requires f.phase.Open? && Covers(f.db, f.store)
    ensures Data(OnOpen(f)) && Represents(OnOpen(f), f)
  {
    var c := OnOpen(f);
    OnOpenShape(f);
    forall i | 0 <= i < |c.log| ensures SectionData(c, i) && DurableData(c, i) {}
    assert CommitLocks.LockInv(c);
    assert Stored(c) == f.store;
  }

  datatype World = World(files: R.State, commit: State)

  datatype Event = File(op: R.Action) | Commit(step: Action)

  /** Opens, closes and crashes move the files; everything done while the database
      is open is a step of the protocol. The last close waits for all leases. */
  predicate CanHappen(w: World, e: Event) {
    match e
    case File(op) =>
      && R.Enabled(w.files, op) && !op.Extend? && !op.WriteSection? && !op.Publish?
      && (op.MergeBegin? ==> forall t :: t in w.commit.threads ==> w.commit.threads[t].pc.Idle?)
    case Commit(step) =>
      && w.files.phase.Open? && w.files.log.Some? && Enabled(w.commit, step) && Guarded(w.commit, step)
      && !step.PowerFailure? && (step.AppendEntry? ==> |w.commit.log| + 1 < MAX_SECTIONS)
  }

  function NextWorld(w: World, e: Event): World
    requires CanHappen(w, e)
  {
    match e
    case File(op) =>
      var files := R.Next(w.files, op);
      World(files, if files.phase.Open? && !w.files.phase.Open? then OnOpen(files) else w.commit)
    case Commit(step) => World(FilesAfter(w.files, w.commit, step), Next(w.commit, step))
  }

  ghost predicate Sound(w: World) {
    R.Inv(w.files) && (w.files.phase.Open? ==> Data(w.commit) && Represents(w.commit, w.files))
  }

  /** The events as steps of the recovery machine. */
  function Projected(w: World, e: Event): seq<R.Action>
    requires CanHappen(w, e)
  {
    match e
    case File(op) => [op]
    case Commit(step) => FileActions(w.commit, step)
  }

  lemma FileEvent(w: World, op: R.Action)
    requires Sound(w) && CanHappen(w, File(op))
    ensures Sound(NextWorld(w, File(op)))
  {
    P.InvStep(w.files, op);
    var files := R.Next(w.files, op);
    if files.phase.Open? {
      OpenCovers(files);
      if w.files.phase.Open? {
        if op.WriteDbHeader? { P.HeaderWritten(w.files.db, op.n); }
        assert files.db == w.files.db && files.store == w.files.store;
      } else {
        OnOpenRepresents(files);
      }
    }
  }

  lemma OpenCovers(f: R.State)
    requires R.Inv(f) && f.phase.Open?
    ensures Covers(f.db, f.store) && f.log.Some?
  {
  }

  lemma EventRefines(w: World, e: Event)
    requires Sound(w) && CanHappen(w, e)
    ensures Sound(NextWorld(w, e))
    ensures R.IsRun(w.files, Projected(w, e)) && R.After(w.files, Projected(w, e)) == NextWorld(w, e).files
  {
    match e
    case File(op) =>
      FileEvent(w, op);
      OneFileAction(w.files, op);
    case Commit(step) =>
      CommitEvent(w, step);
  }

  lemma CommitEvent(w: World, step: Action)
    requires Sound(w) && CanHappen(w, Commit(step))
    ensures var f' := FilesAfter(w.files, w.commit, step);
            && Bridged(w.commit, w.files, step) && R.Inv(f') && Data(Next(w.commit, step)) && f'.phase.Open?
  {
    CommitStepsAreFileSteps(w.commit, w.files, step);
    DataStep(w.commit, step);
    P.InvRun(w.files, FileActions(w.commit, step));
  }

  predicate IsHistory(w: World, events: seq<Event>)
    decreases |events|
  {
    events == [] || (CanHappen(w, events[0]) && IsHistory(NextWorld(w, events[0]), events[1..]))
  }

  function Outcome(w: World, events: seq<Event>): World
    requires IsHistory(w, events)
    decreases |events|
  {
    if events == [] then w else Outcome(NextWorld(w, events[0]), events[1..])
  }

  /** The transactions whose entry was written to section `i`, in order. */
  function CommittedIn(w: World, events: seq<Event>, i: nat): seq<byte>
    requires IsHistory(w, events)
    decreases |events|
  {
    if events == [] then []
    else
      (match events[0]
       case Commit(WriteEntry(t)) => if w.commit.threads[t].index == i then w.commit.threads[t].txn else []
       case _ => [])
      + CommittedIn(NextWorld(w, events[0]), events[1..], i)
  }

  lemma {:induction false} HistoryRefines(w: World, events: seq<Event>, i: nat) returns (actions: seq<R.Action>)
    requires Sound(w) && IsHistory(w, events)
    ensures Sound(Outcome(w, events))
    ensures R.IsRun(w.files, actions) && R.After(w.files, actions) == Outcome(w, events).files
    ensures P.Published(actions, i) == CommittedIn(w, events, i)
    decreases |events|
  {
    hide Sound, NextWorld, CanHappen;
    actions := [];
    if events != [] {
      EventRefines(w, events[0]);
      var rest := HistoryRefines(NextWorld(w, events[0]), events[1..], i);
      actions := Projected(w, events[0]) + rest;
      RunsConcat(w.files, Projected(w, events[0]), rest);
      PublishedConcat(Projected(w, events[0]), rest, i);
      EventPublishes(w, events[0], i);
    }
  }

  lemma {:induction false} RunsConcat(f: R.State, a: seq<R.Action>, b: seq<R.Action>)
    requires R.IsRun(f, a) && R.IsRun(R.After(f, a), b)
    ensures R.IsRun(f, a + b) && R.After(f, a + b) == R.After(R.After(f, a), b)
    decreases |a|
  {
    hide R.Next, R.Enabled;
    if a == [] {
      assert a + b == b;
    } else {
      RunsConcat(R.Next(f, a[0]), a[1..], b);
      assert (a + b)[1..] == a[1..] + b;
    }
  }

  lemma {:induction false} PublishedConcat(a: seq<R.Action>, b: seq<R.Action>, i: nat)
    ensures P.Published(a + b, i) == P.Published(a, i) + P.Published(b, i)
    decreases |a|
  {
    if a == [] {
      assert a + b == b;
    } else {
      PublishedConcat(a[1..], b, i);
      assert (a + b)[1..] == a[1..] + b;
    }
  }

  lemma EventPublishes(w: World, e: Event, i: nat)
    requires CanHappen(w, e)
    ensures P.Published(Projected(w, e), i)
            == match e
               case Commit(WriteEntry(t)) => if w.commit.threads[t].index == i then w.commit.threads[t].txn else []
               case _ => []
  {
    assert forall a: R.Action :: [a][1..] == [];
  }

  function NewWorld(): World {
    World(R.Init(), Init())
  }

  /** The whole life of a database: any number of processes open it, their threads
      lease, write and commit in any interleaving with fresh grants, processes
      close it or crash anywhere. What the next open finds in a section is, whole
      and in order, every transaction whose entry was written. */
  lemma RecoveryFindsCommits(events: seq<Event>, i: nat)
    requires IsHistory(NewWorld(), events)
    ensures var f := Outcome(NewWorld(), events).files;
            && R.Recover(f.db, f.log).Some?
            && R.ContentAt(R.Recover(f.db, f.log).value, i) == CommittedIn(NewWorld(), events, i)
  {
    var actions := HistoryRefines(NewWorld(), events, i);
    P.RecoveryYieldsPublished(actions, i);
  }
}
