// The write lease, entry lock and commit protocol (logdb_lease.c, logdb_log.c,
// logdb_txn.c) as a step machine with one program counter per thread.
//
// A step is one access to shared state: an `lseek`, `read` or `write` of the
// log, an operation on an in-process slot, an `fcntl`, one write of a chunk of
// the transaction, one `fsync`. Threads of all processes interleave freely.
// The steps are those of the code, except that the in-process slots are a plain
// map from entry to lock count: `TwoLevel` puts the list of lock blocks there.
module CommitProtocol {
  import opened Bytes
  import opened Layout

  type Txn = seq<byte>

  datatype Pc =
    | Idle
    | Walk        // label `walk`: about to find the end of the log
    | Look        // in the backward loop, about to test `index--`
    | Extend      // about to append a zero entry
    | Locate      // appended; about to ask for the current file position
    | TakeSlot    // about to take the in-process slot of `index`
    | TakeRecord  // slot taken; about to take the `fcntl` lock
    | GiveBack    // `fcntl` refused; about to give the slot back
    | Recheck     // both locks held; about to read the entry again
    | Write
    | SyncDb
    | Publish
    | SyncLog
    | DropRecord
    | DropSlot

  datatype Thread = Thread(
    proc: nat,
    pc: Pc,
    txn: Txn,        // the bytes to commit
    index: nat,      // section chosen
    visited: nat,    // entries walked past
    start: nat,      // `offset`: the section length read before the locks
    done: nat,       // bytes written so far
    held: set<nat>)  // entries this thread has locked at both levels

  datatype State = State(
    log: seq<nat>,                  // entry lengths
    durableLog: seq<nat>,
    db: seq<seq<byte>>,             // section bytes
    durableDb: seq<seq<byte>>,
    slots: map<(nat, nat), int>,    // (process, index): 0 free, -1 write-locked
    records: map<nat, nat>,         // `fcntl` write lock on an entry: its process
    position: map<nat, nat>,        // per process, file position of the log in entries
    threads: map<nat, Thread>,
    store: seq<seq<Txn>>,           // abstract store: the transactions of each section
    durableStore: seq<seq<Txn>>)    // the part of it that a power failure keeps

  datatype Action =
    | Begin(t: nat, proc: nat, txn: Txn)
    | FindEnd(t: nat)
    | LookBack(t: nat)
    | AppendEntry(t: nat)
    | FindAppended(t: nat)
    | TrySlot(t: nat)
    | TryRecord(t: nat)
    | ReturnSlot(t: nat)
    | CheckAgain(t: nat)
    | WriteChunk(t: nat, n: nat)
    | SyncDatabase(t: nat)
    | WriteEntry(t: nat)
    | SyncLogFile(t: nat, ok: bool)
    | FreeRecord(t: nat)
    | FreeSlot(t: nat)
    | Fail(t: nat)
    | BackgroundEntry(index: nat)                      // the OS writes an entry back
    | BackgroundBytes(index: nat, lo: nat, hi: nat)    // the OS writes section bytes back
    | Crash(proc: nat)
    | PowerFailure

  // ---------------------------------------------------------------- steps

  function Slot(s: State, proc: nat, index: nat): int {
    if (proc, index) in s.slots then s.slots[(proc, index)] else 0
  }

  function Blank(): seq<byte> {
    Zeros(SECTION_SIZE)
  }

  function Init(): State {
    State([], [], seq(MAX_SECTIONS, _ => Blank()), seq(MAX_SECTIONS, _ => Blank()),
          map[], map[], map[], map[], [], [])
  }

  predicate At(s: State, t: nat, pc: Pc) {
    t in s.threads && s.threads[t].pc == pc
  }

  predicate CanFail(pc: Pc) {
    pc.Walk? || pc.Extend? || pc.Locate? || pc.Write? || pc.SyncDb? || pc.Publish?
  }

  predicate HasRoom(s: State, th: Thread) {
    th.index < |s.log| && HasSpace(s.log[th.index], |th.txn|)
  }

  /** The step can be taken. Fewer than 65536 sections and sizes that
      `logdb_txn_commit` passes on are the only restrictions of ours. */
  predicate Enabled(s: State, a: Action) {
    match a
    case Begin(t, proc, txn) =>
      && 0 < |txn| <= SECTION_SIZE
      && (t in s.threads ==> s.threads[t].pc.Idle? && s.threads[t].proc == proc)
    case FindEnd(t) => At(s, t, Walk)
    case LookBack(t) => At(s, t, Look)
    case AppendEntry(t) => At(s, t, Extend) && |s.log| < MAX_SECTIONS
    case FindAppended(t) => At(s, t, Locate)
    case TrySlot(t) => At(s, t, TakeSlot)
    case TryRecord(t) => At(s, t, TakeRecord)
    case ReturnSlot(t) => At(s, t, GiveBack)
    case CheckAgain(t) => At(s, t, Recheck)
    case WriteChunk(t, n) => At(s, t, Write) && 0 < n <= |s.threads[t].txn| - s.threads[t].done
    case SyncDatabase(t) => At(s, t, SyncDb)
    case WriteEntry(t) => At(s, t, Publish)
    case SyncLogFile(t, ok) => At(s, t, SyncLog)
    case FreeRecord(t) => At(s, t, DropRecord)
    case FreeSlot(t) => At(s, t, DropSlot)
    case Fail(t) => t in s.threads && CanFail(s.threads[t].pc)
    case BackgroundEntry(index) => index < |s.log|
    case BackgroundBytes(index, lo, hi) => index < MAX_SECTIONS && lo <= hi <= SECTION_SIZE
    case Crash(proc) => true
    case PowerFailure => true
  }

  function Put(s: State, t: nat, th: Thread): State {
    s.(threads := s.threads[t := th])
  }

  /** `section` with `data` written at `at`, as far as both fit. */
  function Patch(section: seq<byte>, at: nat, data: seq<byte>): (r: seq<byte>)
    ensures at + |data| <= |section| ==>
              && |r| == |section|
              && r[at..at + |data|] == data
              && r[..at] == section[..at]
              && forall i :: 0 <= i < |section| && !(at <= i < at + |data|) ==> r[i] == section[i]
  {
    if at + |data| <= |section| then section[..at] + data + section[at + |data|..] else section
  }

  function BeginThread(s: State, t: nat, proc: nat, txn: Txn): Thread {
    Thread(proc, Walk, txn, 0, 0, 0, 0, if t in s.threads then s.threads[t].held else {})
  }

  /** `lseek (SEEK_END)`; the subtraction of `visited` is in 32 bits. */
  function FindEndThread(s: State, th: Thread): Thread {
    th.(pc := Look, index := (|s.log| - th.visited) % U32_LIMIT, visited := 0)
  }

  function SetPosition(s: State, proc: nat, position: nat): State {
    s.(position := s.position[proc := position])
  }

  /** One turn of the backward loop. */
  function LookThread(s: State, th: Thread): Thread {
    if th.index == 0 || th.visited >= MAX_WALK then
      th.(pc := Extend)
    else if HasRoom(s, th.(index := th.index - 1)) then
      th.(index := th.index - 1, visited := th.visited + 1, pc := TakeSlot, start := s.log[th.index - 1])
    else
      th.(index := th.index - 1, visited := th.visited + 1)
  }

  /** `write` of a zero entry in append mode. */
  function Extended(s: State, proc: nat): State {
    s.(log := s.log + [0], store := s.store + [[]], position := s.position[proc := |s.log| + 1])
  }

  /** `lseek (SEEK_CUR)`: the position is shared by the threads of the process. */
  function LocateThread(s: State, th: Thread): Thread {
    var position := if th.proc in s.position then s.position[th.proc] else 0;
    th.(pc := TakeSlot, index := (position - 1) % U32_LIMIT, start := 0, visited := 1)
  }

  function TakeSlotStep(s: State, t: nat): State
    requires At(s, t, TakeSlot)
  {
    var th := s.threads[t];
    if Slot(s, th.proc, th.index) == 0 then
      Put(s.(slots := s.slots[(th.proc, th.index) := -1]), t, th.(pc := TakeRecord))
    else
      Put(s, t, th.(pc := Walk))
  }

  /** `fcntl (F_SETLK)`: a process never conflicts with itself. */
  function TakeRecordStep(s: State, t: nat): State
    requires At(s, t, TakeRecord)
  {
    var th := s.threads[t];
    if th.index in s.records && s.records[th.index] != th.proc then
      Put(s, t, th.(pc := GiveBack))
    else
      Put(s.(records := s.records[th.index := th.proc]), t,
          th.(pc := Recheck, held := th.held + {th.index}))
  }

  function FreeSlotStep(s: State, t: nat, pc: Pc): State
    requires t in s.threads
  {
    var th := s.threads[t];
    Put(s.(slots := s.slots[(th.proc, th.index) := Slot(s, th.proc, th.index) + 1]), t, th.(pc := pc))
  }

  /** A section that filled up sends the thread back to `walk` with both locks kept. */
  function RecheckThread(s: State, th: Thread): Thread {
    if HasRoom(s, th) then th.(pc := Write, done := 0) else th.(pc := Walk)
  }

  /** A chunk of the transaction, written at the lease offset. */
  function Written(s: State, th: Thread, n: nat): State
    requires th.done + n <= |th.txn|
  {
    if th.index < |s.db| then
      s.(db := s.db[th.index := Patch(s.db[th.index], th.start + th.done, th.txn[th.done..th.done + n])])
    else s
  }

  function WriteThread(th: Thread, n: nat): Thread {
    th.(done := th.done + n, pc := if th.done + n == |th.txn| then SyncDb else Write)
  }

  /** The entry is overwritten with the 16-bit lease offset. */
  function Published(s: State, th: Thread): State {
    if th.index < |s.log| && th.index < |s.store| then
      s.(log := s.log[th.index := StoredLength(th.start + th.done)],
         store := s.store[th.index := s.store[th.index] + [th.txn]])
    else s
  }

  function LogSynced(s: State, ok: bool): State {
    if ok then s.(durableLog := s.log, durableStore := s.store) else s
  }

  function FreeRecordStep(s: State, t: nat): State
    requires At(s, t, DropRecord)
  {
    var th := s.threads[t];
    Put(s.(records := s.records - {th.index}), t, th.(pc := DropSlot, held := th.held - {th.index}))
  }

  function FailThread(th: Thread): Thread {
    th.(pc := if th.pc.Walk? || th.pc.Extend? || th.pc.Locate? then Idle else DropRecord)
  }

  /** `s` long enough to have an element at `index`; the hole is filled with `zero`. */
  function Reach<T>(s: seq<T>, index: nat, zero: T): (r: seq<T>)
    ensures |r| == if index < |s| then |s| else index + 1
    ensures s <= r
    ensures forall i :: |s| <= i < |r| ==> r[i] == zero
  {
    if index < |s| then s else s + seq(index + 1 - |s|, _ => zero)
  }

  function BackgroundEntryStep(s: State, index: nat): State
    requires index < |s.log|
  {
    var store := if index < |s.store| then s.store[index] else [];
    s.(durableLog := Reach(s.durableLog, index, 0)[index := s.log[index]],
       durableStore := Reach(s.durableStore, index, [])[index := store])
  }

  function BackgroundBytesStep(s: State, index: nat, lo: nat, hi: nat): State
    requires lo <= hi
  {
    if index < |s.db| && index < |s.durableDb| && hi <= |s.db[index]| then
      s.(durableDb := s.durableDb[index := Patch(s.durableDb[index], lo, s.db[index][lo..hi])])
    else s
  }

  function CrashStep(s: State, proc: nat): State {
    s.(slots := map k | k in s.slots && k.0 != proc :: s.slots[k],
       records := map i | i in s.records && s.records[i] != proc :: s.records[i],
       position := s.position - {proc},
       threads := map t | t in s.threads && s.threads[t].proc != proc :: s.threads[t])
  }

  function PowerFailureStep(s: State): State {
    State(s.durableLog, s.durableLog, s.durableDb, s.durableDb, map[], map[], map[], map[],
          s.durableStore, s.durableStore)
  }

  function Next(s: State, a: Action): State
    requires Enabled(s, a)
  {
    match a
    case Begin(t, proc, txn) => Put(s, t, BeginThread(s, t, proc, txn))
    case FindEnd(t) => Put(SetPosition(s, s.threads[t].proc, |s.log|), t, FindEndThread(s, s.threads[t]))
    case LookBack(t) => Put(s, t, LookThread(s, s.threads[t]))
    case AppendEntry(t) => Put(Extended(s, s.threads[t].proc), t, s.threads[t].(pc := Locate))
    case FindAppended(t) => Put(s, t, LocateThread(s, s.threads[t]))
    case TrySlot(t) => TakeSlotStep(s, t)
    case TryRecord(t) => TakeRecordStep(s, t)
    case ReturnSlot(t) => FreeSlotStep(s, t, Walk)
    case CheckAgain(t) => Put(s, t, RecheckThread(s, s.threads[t]))
    case WriteChunk(t, n) => Put(Written(s, s.threads[t], n), t, WriteThread(s.threads[t], n))
    case SyncDatabase(t) => Put(s.(durableDb := s.db), t, s.threads[t].(pc := Publish))
    case WriteEntry(t) => Put(Published(s, s.threads[t]), t, s.threads[t].(pc := SyncLog))
    case SyncLogFile(t, ok) => Put(LogSynced(s, ok), t, s.threads[t].(pc := DropRecord))
    case FreeRecord(t) => FreeRecordStep(s, t)
    case FreeSlot(t) => FreeSlotStep(s, t, Idle)
    case Fail(t) => Put(s, t, FailThread(s.threads[t]))
    case BackgroundEntry(index) => BackgroundEntryStep(s, index)
    case BackgroundBytes(index, lo, hi) => BackgroundBytesStep(s, index, lo, hi)
    case Crash(proc) => CrashStep(s, proc)
    case PowerFailure => PowerFailureStep(s)
  }

  /** The actions can be taken one after the other from `s`. */
  predicate IsRun(s: State, actions: seq<Action>)
    decreases |actions|
  {
    actions == [] || (Enabled(s, actions[0]) && IsRun(Next(s, actions[0]), actions[1..]))
  }

  function After(s: State, actions: seq<Action>): State
    requires IsRun(s, actions)
    decreases |actions|
  {
    if actions == [] then s else After(Next(s, actions[0]), actions[1..])
  }
}
