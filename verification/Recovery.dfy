// Opening, closing and crashing (logdb_connection.c, logdb_log.c): the two files
// as byte strings, with a process crash possible between any two file operations
// and after any byte of a write. `flock` conversions are atomic.
module Recovery {
  import opened Bytes
  import opened Layout
  import opened FileFormat

  datatype Phase =
    | Closed
    | Creating(body: nat, head: nat)  // exclusive lock; bytes of entries and of header written
    | Open(users: nat)                // shared locks
    | Merging(written: nat)           // exclusive lock; bytes of the embedded log written

  datatype State = State(db: seq<byte>, log: Option<seq<byte>>, phase: Phase, store: Store)

  datatype Action =
    | WriteDbHeader(n: nat)                          // open with CREATE, up to its first n bytes
    | OpenBegin                                      // exclusive lock taken, `logdb_log_create` or `_open`
    | CreateBody(to: nat)
    | CreateHeader(to: nat)
    | CreateFail
    | CreateDone
    | Join
    | Extend
    | WriteSection(i: nat, at: nat, data: seq<byte>) // bytes of a transaction
    | Publish(i: nat, data: seq<byte>)               // its log entry
    | Leave                                          // close or crash of one of several users
    | MergeBegin
    | MergeWrite(to: nat)
    | MergeUnlink
    | MergeFail
    | Crash                                          // of the only process

  // ------------------------------------------------------------ trimming

  /** Number of entries up to the last one that is not empty. */
  function Kept(lens: seq<nat>): (n: nat)
    ensures n <= |lens|
    ensures n > 0 ==> lens[n - 1] > 0
    ensures forall i :: n <= i < |lens| ==> lens[i] == 0
  {
    if lens == [] || lens[|lens| - 1] > 0 then |lens| else Kept(lens[..|lens| - 1])
  }

  /** Where the committed bytes end. */
  function DataEnd(lens: seq<nat>): nat {
    if Kept(lens) == 0 then DB_HEADER_SIZE else SectionStart(Kept(lens) - 1) + lens[Kept(lens) - 1]
  }

  function Trim(store: Store): Store {
    store[..Kept(Lens(store))]
  }

  function ContentAt(store: Store, i: nat): seq<byte> {
    if i < |store| then store[i] else []
  }

  lemma TrimKeepsContent(store: Store, i: nat)
    ensures ContentAt(Trim(store), i) == ContentAt(store, i)
    ensures Lens(Trim(store)) == Lens(store)[..Kept(Lens(store))]
  {
    if i < |store| { assert Lens(store)[i] == |store[i]|; }
  }

  // --------------------------------------------------------------- steps

  predicate SmallStore(store: Store) {
    |store| < MAX_SECTIONS && forall i :: 0 <= i < |store| ==> |store[i]| < SECTION_SIZE
  }

  /** The log that merging appends to the database. */
  function Tail(store: Store): (tail: seq<byte>)
    requires SmallStore(store)
  {
    TrimKeepsContent(store, 0);
    MergeTail(Lens(Trim(store)))
  }

  function EntriesOf(db: seq<byte>): seq<byte> {
    match ReadEmbedded(db)
    case Found(entries) => entries
    case _ => []
  }

  predicate Enabled(s: State, a: Action) {
    match a
    case WriteDbHeader(n) => n <= DB_HEADER_SIZE
    case OpenBegin =>
      s.phase.Closed? && DB_HEADER <= s.db && (s.log.None? ==> !ReadEmbedded(s.db).Damaged?)
    case CreateBody(to) =>
      s.phase.Creating? && s.log.Some? && s.phase.head == 0 && s.phase.body < to <= |EntriesOf(s.db)|
    case CreateHeader(to) =>
      s.phase.Creating? && s.log.Some? && s.phase.body == |EntriesOf(s.db)| && s.phase.head < to <= LOG_HEADER_SIZE
    case CreateFail => s.phase.Creating?
    case CreateDone => s.phase.Creating? && s.phase.head == LOG_HEADER_SIZE
    case Join => s.phase.Open?
    case Extend => s.phase.Open? && s.log.Some? && |s.store| + 1 < MAX_SECTIONS
    case WriteSection(i, at, data) =>
      s.phase.Open? && i < |s.store| && |s.store[i]| <= at && at + |data| <= SECTION_SIZE
    case Publish(i, data) =>
      && s.phase.Open? && s.log.Some? && i < |s.store| && data != []
      && |s.store[i]| + |data| < SECTION_SIZE
      && SectionAt(s.db, i, s.store[i] + data)
    case Leave => s.phase.Open? && s.phase.users > 1
    case MergeBegin => s.phase == Open(1) && SmallStore(s.store)
    case MergeWrite(to) => s.phase.Merging? && SmallStore(s.store) && s.phase.written < to <= |Tail(s.store)|
    case MergeUnlink => s.phase.Merging? && SmallStore(s.store) && s.phase.written == |Tail(s.store)|
    case MergeFail => s.phase.Merging?
    case Crash => s.phase.Creating? || s.phase.Merging? || s.phase == Open(1)
  }

  /** `ftruncate`. */
  function Truncate(db: seq<byte>, n: nat): seq<byte> {
    if n <= |db| then db[..n] else db + Zeros(n - |db|)
  }

  /** First thing after the exclusive lock: a missing log is created empty, a
      valid one is taken over, anything else is deleted. */
  function OpenBeginStep(s: State): State {
    if s.log.None? then s.(log := Some([]), phase := Creating(0, 0))
    else if LogValid(s.log.value) then s.(phase := Open(1))
    else s.(log := None)
  }

  function Next(s: State, a: Action): State
    requires Enabled(s, a)
  {
    match a
    case WriteDbHeader(n) => s.(db := Overwrite(s.db, 0, DB_HEADER[..n]))
    case OpenBegin => OpenBeginStep(s)
    case CreateBody(to) =>
      var at := s.phase.body;
      s.(log := Some(Overwrite(s.log.value, LOG_HEADER_SIZE + at, EntriesOf(s.db)[at..to])), phase := Creating(to, 0))
    case CreateHeader(to) =>
      var at := s.phase.head;
      s.(log := Some(Overwrite(s.log.value, at, LOG_HEADER[at..to])), phase := Creating(s.phase.body, to))
    case CreateFail => s.(log := None, phase := Closed)
    case CreateDone => s.(phase := Open(1))
    case Join => s.(phase := Open(s.phase.users + 1))
    case Extend => s.(log := Some(s.log.value + U16(0)), store := s.store + [[]])
    case WriteSection(i, at, data) => s.(db := Overwrite(s.db, SectionStart(i) + at, data))
    case Publish(i, data) =>
      s.(log := Some(Overwrite(s.log.value, LogOffset(i), U16(|s.store[i]| + |data|))),
         store := s.store[i := s.store[i] + data])
    case Leave => s.(phase := Open(s.phase.users - 1))
    case MergeBegin => s.(db := Truncate(s.db, DataEnd(Lens(s.store))), phase := Merging(0))
    case MergeWrite(to) => s.(db := s.db + Tail(s.store)[s.phase.written..to], phase := Merging(to))
    case MergeUnlink => s.(log := None, store := Trim(s.store), phase := Closed)
    case MergeFail => s.(phase := Closed)
    case Crash => s.(phase := Closed)
  }

  predicate IsRun(s: State, actions: seq<Action>)
    decreases |actions|
  {
    actions == [] || (Enabled(s, actions[0]) && IsRun(Next(s, actions[0]), actions[1..]))
  }

  function After(s: State, actions: seq<Action>): State
    requires IsRun(s, actions)
    decreases |actions|
  {
    if actions == [] then s else After(Next(s, actions[0]), actions[1..])
  }

  /** Neither file has any content. */
  function Init(): State {
    State([], None, Closed, [])
  }

  // ------------------------------------------------------------ recovery

  /** The entries that the next open works with: a valid log file, else the log
      at the end of the database, else none. */
  function RecoveredEntries(db: seq<byte>, log: Option<seq<byte>>): Option<seq<nat>> {
    if log.Some? && LogValid(log.value) then Some(DecodeEntries(log.value[LOG_HEADER_SIZE..]))
    else match ReadEmbedded(db)
      case NoLog => Some([])
      case Found(entries) => Some(DecodeEntries(entries))
      case Damaged => None
  }

  predicate InDb(db: seq<byte>, lens: seq<nat>) {
    forall i :: 0 <= i < |lens| ==> lens[i] > 0 ==> SectionStart(i) + lens[i] <= |db|
  }

  function Sections(db: seq<byte>, lens: seq<nat>): Store
    requires InDb(db, lens)
  {
    seq(|lens|, i requires 0 <= i < |lens| =>
      if lens[i] == 0 then [] else db[SectionStart(i)..SectionStart(i) + lens[i]])
  }

  /** The committed bytes that the next open finds; `None` if it cannot tell. */
  function Recover(db: seq<byte>, log: Option<seq<byte>>): Option<Store> {
    var lens := RecoveredEntries(db, log);
    if lens.Some? && InDb(db, lens.value) then Some(Sections(db, lens.value)) else None
  }

  // ----------------------------------------------------------- invariant

  /** The log file alone holds the entries. */
  predicate LogHolds(db: seq<byte>, log: Option<seq<byte>>, store: Store) {
    Covers(db, store) && SmallLens(Lens(store)) && log == Some(EncodeLog(Lens(store)))
  }

  /** The database alone holds the entries: it ends with them, or has no data yet. */
  predicate DbHolds(db: seq<byte>, store: Store) {
    || (|db| < MIN_SIZE && store == [])
    || (Covers(db, store) && SmallLens(Lens(store)) && ReadEmbedded(db) == Found(EncodeEntries(Lens(store))))
  }

  /** A valid log file is authoritative; an invalid or missing one implies that
      the embedded log is intact or that there is no data. */
  predicate Authoritative(db: seq<byte>, log: Option<seq<byte>>, store: Store) {
    if log.Some? && LogValid(log.value) then LogHolds(db, log, store) else DbHolds(db, store)
  }

  predicate HeaderStarted(db: seq<byte>) {
    db <= DB_HEADER || DB_HEADER <= db
  }

  /** The log file after `body` bytes of entries and then `head` of the header. */
  function PartialLog(entries: seq<byte>, body: nat, head: nat): seq<byte>
    requires body <= |entries| && head <= LOG_HEADER_SIZE
  {
    Overwrite(if body == 0 then [] else Zeros(LOG_HEADER_SIZE) + entries[..body], 0, LOG_HEADER[..head])
  }

  predicate MergeState(s: State)
    requires s.phase.Merging?
  {
    && LogHolds(s.db, s.log, s.store)
    && s.phase.written <= |Tail(s.store)|
    && DataEnd(Lens(s.store)) + s.phase.written == |s.db|
    && s.db[DataEnd(Lens(s.store))..] == Tail(s.store)[..s.phase.written]
  }

  predicate CreateState(s: State)
    requires s.phase.Creating?
  {
    && DbHolds(s.db, s.store)
    && s.phase.body <= |EntriesOf(s.db)| && s.phase.head <= LOG_HEADER_SIZE
    && (s.phase.head > 0 ==> s.phase.body == |EntriesOf(s.db)|)
    && s.log == Some(PartialLog(EntriesOf(s.db), s.phase.body, s.phase.head))
  }

  predicate Inv(s: State) {
    && HeaderStarted(s.db)
    && (!s.phase.Closed? ==> DB_HEADER <= s.db)
    && match s.phase
       case Closed => Authoritative(s.db, s.log, s.store)
       case Creating(_, _) => CreateState(s)
       case Open(users) => users > 0 && LogHolds(s.db, s.log, s.store)
       case Merging(_) => MergeState(s)
  }
}
