// logdb_log.c and logdb_connection.c: creating the log, merging it back and the
// retry in `logdb_open`, on files updated in place. File operations that can
// fail do so when the caller's flags say so.
module OpenClose {
  import opened Bytes
  import opened Layout
  import opened FileFormat
  import opened Recovery
  import opened RecoveryProofs

  /** The trimming loop of `logdb_log_close_merge`. The size is that of the
      committed data as long as 32 bits can hold the end of the last section. */
  method TrimTrailing(log: seq<byte>, ghost lens: seq<nat>) returns (minsz: int, logsz: nat)
    requires SmallLens(lens) && log == EncodeLog(lens) && |lens| < U32_LIMIT
    ensures logsz == LOG_HEADER_SIZE + ENTRY_SIZE * Kept(lens)
    ensures minsz == DataEnd(lens) - |lens| / MAX_SECTIONS * U32_LIMIT
  {
    hide Kept, EncodeLog, FromU16;
    logsz := |log|;
    var sections := IndexFromOffset(logsz);
    assert sections == |lens|;
    assert lens[..sections] == lens;
    minsz := ConnectionOffset(sections);
    WrappedOffset(sections);
    ghost var wrap := sections / MAX_SECTIONS * U32_LIMIT;
    var i := 1;
    while i <= sections
      invariant 1 <= i <= sections + 1
      invariant logsz == LOG_HEADER_SIZE + ENTRY_SIZE * (sections - i + 1)
      invariant minsz == SectionStart(sections - i + 1) - wrap
      invariant Kept(lens) == Kept(lens[..sections - i + 1])
    {
      var len := FromU16(log[LogOffset(sections - i)..LogOffset(sections - i) + ENTRY_SIZE]);
      EntryInLog(lens, sections - i);
      KeptStep(lens, sections - i + 1);
      minsz := minsz - (SECTION_SIZE - len);
      if len == 0 {
        logsz := logsz - ENTRY_SIZE;
      } else {
        return;
      }
      i := i + 1;
    }
    KeptStep(lens, 0);
  }

  lemma KeptStep(lens: seq<nat>, n: nat)
    requires n <= |lens|
    ensures n == 0 ==> Kept(lens[..n]) == 0
    ensures n > 0 ==> Kept(lens[..n]) == if lens[n - 1] > 0 then n else Kept(lens[..n - 1])
  {
    if n > 0 { assert lens[..n][..n - 1] == lens[..n - 1]; }
  }

  lemma WrappedOffset(sections: nat)
    ensures ConnectionOffset(sections) == SectionStart(sections) - sections / MAX_SECTIONS * U32_LIMIT
  {
    OffsetModulo(sections);
    assert sections == sections / MAX_SECTIONS * MAX_SECTIONS + sections % MAX_SECTIONS;
  }

  lemma EntryInLog(lens: seq<nat>, i: nat)
    requires SmallLens(lens) && i < |lens|
    ensures FromU16(EncodeLog(lens)[LogOffset(i)..LogOffset(i) + ENTRY_SIZE]) == lens[i]
  {
    var entry := EncodeLog(lens)[LogOffset(i)..LogOffset(i) + ENTRY_SIZE];
    assert (2 * i) / 2 == i && (2 * i + 1) / 2 == i;
    assert entry[0] == EncodeEntries(lens)[2 * i] && entry[1] == EncodeEntries(lens)[2 * i + 1];
  }

  class Files {
    var db: seq<byte>
    var log: Option<seq<byte>>

    constructor (database: seq<byte>, logFile: Option<seq<byte>>)
      ensures db == database && log == logFile
    {
      db, log := database, logFile;
    }

    /** `logdb_log_close_merge`. `room` is how many bytes the disk still takes. */
    method CloseMerge(truncates: bool, room: nat, unlinks: bool, ghost store: Store) returns (ok: bool)
      requires LogHolds(db, log, store) && DB_HEADER <= db
      modifies this
      ensures DB_HEADER <= db
      ensures ok <==> truncates && |Tail(store)| <= room
      ensures !truncates ==> db == old(db)
      ensures truncates ==> db == old(db)[..DataEnd(Lens(store))] + Tail(store)[..Least(room, |Tail(store)|)]
      ensures log == if ok && unlinks then None else old(log)
      ensures Authoritative(db, log, if log.None? then Trim(store) else store)
    {
      hide Tail, DataEnd, Covers, Kept, LogValid;
      MergeFacts(db, log, store);
      ok := false;
      var header := log.value;
      if !LogValid(header) { return; }
      var minsz, logsz := TrimTrailing(header, Lens(store));
      if !truncates { return; }
      ghost var was := db;
      db := Truncate(db, minsz);
      var tail := header[..logsz] + U32(logsz + TRAILER_SIZE);
      TailIs(store, tail);
      db := db + tail[..Least(room, |tail|)];
      AfterMerge(was, db, store, Least(room, |tail|));
      if room < |tail| { return; }
      ok := true;
      if unlinks { log := None; }
    }

    /** `logdb_log_create`, for a database that `DbHolds` when there is no log. `room`
        is how many bytes the disk takes, and `unlinks` says whether files can be
        deleted: a log that was not written whole is. */
    method LogCreate(room: nat, unlinks: bool, ghost store: Store) returns (ok: bool)
      requires log.None? ==> DbHolds(db, store)
      modifies this`log
      ensures ok <==> old(log).None? && LogSize(store) <= room
      ensures old(log).Some? ==> log == old(log)
      ensures old(log).None? ==>
                log == if ok then Some(EncodeLog(Lens(store))) else if unlinks then None
                       else Some(CutLog(EncodeEntries(Lens(store)), room))
    {
      hide LogValid, CutLog, EncodeEntries;
      var bytes := [];
      if |db| >= MIN_SIZE {
        var back := FromU32(db[|db| - TRAILER_SIZE..]);
        if back > |db| { return false; }  // the seek fails
        var entries := LogRead(|db| - back);
        if entries.Some? { bytes := entries.value; }
      }
      if log.Some? { return false; }  // O_EXCL
      SourceEntries(db, store);
      assert bytes == EntriesOf(db);
      var body := Least(room, |bytes|);
      var head := Least(room - body, LOG_HEADER_SIZE);
      CutLogIs(bytes, room);
      var file := Overwrite([], LOG_HEADER_SIZE, bytes[..body]);
      if body == |bytes| { file := Overwrite(file, 0, LOG_HEADER[..head]); }
      ok := body == |bytes| && head == LOG_HEADER_SIZE;
      log := if ok || !unlinks then Some(file) else None;
    }

    /** `logdb_log_read` of the log embedded in the database. */
    method LogRead(at: nat) returns (entries: Option<seq<byte>>)
      requires at <= |db|
      ensures entries == if |db| - at >= LOG_HEADER_SIZE + TRAILER_SIZE && db[at..at + LOG_HEADER_SIZE] == LOG_HEADER
                         then Some(db[at + LOG_HEADER_SIZE..|db| - TRAILER_SIZE]) else None
    {
      if |db| - at < LOG_HEADER_SIZE || db[at..at + LOG_HEADER_SIZE] != LOG_HEADER { return None; }
      var start, end := at + LOG_HEADER_SIZE, |db| - TRAILER_SIZE;
      if end < start { return None; }  // the size wraps to one that cannot be allocated
      return Some(db[start..end]);
    }

    /** The part of `logdb_open` under the exclusive lock, label
        `retry_create_locked`: a corrupt log is deleted, if there is one, it can be,
        and nothing was retried before. */
    method CreateLocked(mayRetry: bool, room: nat, unlinks: bool, ghost store: Store) returns (ok: bool, retry: bool)
      requires Authoritative(db, log, store)
      modifies this`log
      ensures ok <==> CanOpen(old(log), mayRetry, room, unlinks, store)
      ensures (if ok then LogHolds(db, log, store) else Authoritative(db, log, store)) && (retry ==> mayRetry)
      ensures !ok ==> log == LeftLog(old(log), mayRetry, room, unlinks, store)
    {
      hide CutLog;
      EncodeOfStore(db, log, store);
      ok, retry := false, mayRetry;
      while !ok
        invariant Authoritative(db, log, store) && Covers(db, store) && (retry ==> mayRetry)
        invariant !ok && retry == mayRetry ==> log == old(log)
        invariant old(log).Some? && LogValid(old(log).value) ==> log == old(log)
        invariant !ok && retry != mayRetry ==>
                    unlinks && log.None? && old(log).Some? && !LogValid(old(log).value)
        invariant ok ==> LogHolds(db, log, store) && CanOpen(old(log), mayRetry, room, unlinks, store)
        decreases !ok, retry
      {
        ghost var entries := EncodeEntries(Lens(store));
        ok := LogCreate(room, unlinks, store);
        if ok {
          EncodeOfStore(db, None, store);
        } else {
          CutLogOk(db, entries, room, store);
          if log.Some? && LogValid(log.value) {
            ok := true;
          } else {
            if !retry || !unlinks || log.None? { return; }
            log, retry := None, false;
          }
        }
      }
    }

    method WriteDbHeader()
      requires HeaderStarted(db)
      modifies this`db
      ensures db == WithHeader(old(db), true) && DB_HEADER <= db && (DB_HEADER <= old(db) ==> db == old(db))
      ensures forall l, store :: Authoritative(old(db), l, store) ==> Authoritative(db, l, store)
    {
      ghost var before := db;
      db := Overwrite(db, 0, DB_HEADER);
      assert DB_HEADER[..DB_HEADER_SIZE] == DB_HEADER;
      HeaderWritten(before, DB_HEADER_SIZE);
      forall l, store | Authoritative(before, l, store) ensures Authoritative(db, l, store) {
        HeaderWhole(before, l, store);
      }
    }

    /** `logdb_open`. `alone` and `aloneThen` are the answers to the two requests
        for the exclusive lock. When the first is refused, others have the lock or
        the files in use; `laterDb` and `laterLog` are what they have made of the
        files when the shared lock is granted: they may still have the database
        open, have closed and merged it, have created the log or failed to, or have
        crashed at any point of that. */
    method Open(create: bool, nosync: bool, room: nat, unlinks: bool, alone: bool, laterDb: seq<byte>,
                laterLog: Option<seq<byte>>, aloneThen: bool, ghost store: Store, ghost later: Store)
      returns (ok: bool)
      requires HeaderStarted(db) && (create || DB_HEADER <= db)
      requires alone ==> Authoritative(db, log, store)
      requires !alone ==> DB_HEADER <= laterDb && Authoritative(laterDb, laterLog, later)
      modifies this
      ensures ok <==>
                if alone then CanOpen(old(log), true, room, unlinks, store)
                else !nosync && if laterLog.None? then aloneThen && Creates(room, unlinks, later)
                                else LogValid(laterLog.value)
      ensures ok ==> LogHolds(db, log, if alone then store else later)
      ensures db == if alone || nosync then WithHeader(old(db), create) else laterDb
      ensures !ok ==> log == if alone then LeftLog(old(log), true, room, unlinks, store)
                             else if nosync then old(log)
                             else if aloneThen then LeftLog(laterLog, false, room, unlinks, later) else laterLog
      ensures DB_HEADER <= db && (!ok && (alone || !nosync) ==> Authoritative(db, log, if alone then store else later))
    {
      if create { WriteDbHeader(); }
      var exclusive, retry := alone, true;
      ghost var now := if alone then store else later;
      ok := false;
      while true
        invariant !ok && (if retry then exclusive == alone else !alone && !nosync && exclusive == aloneThen)
        invariant retry ==> DB_HEADER <= db == WithHeader(old(db), create) && log == old(log)
        invariant retry && alone ==> Authoritative(db, log, now)
        invariant !retry ==> db == laterDb && log == laterLog && !(log.Some? && LogValid(log.value))
        decreases retry
      {
        if exclusive {
          ok, retry := CreateLocked(retry, room, unlinks, now);
          if !ok { return; }
        } else if nosync {
          return;
        } else {
          db, log := laterDb, laterLog;  // what others did until the shared lock was granted
        }
        if !ok {
          EncodeLogIsValid(db, log, now);
          ok := log.Some? && LogValid(log.value);
        }
        if ok || !retry { return; }
        exclusive, retry := aloneThen, false;
      }
    }

    /** `logdb_close`: the last user merges, the others leave the files alone. */
    method Close(last: bool, truncates: bool, room: nat, unlinks: bool, ghost store: Store) returns (merged: bool)
      requires LogHolds(db, log, store) && DB_HEADER <= db
      modifies this
      ensures merged <==> last && truncates && |Tail(store)| <= room
      ensures db == if last && truncates
                    then old(db)[..DataEnd(Lens(store))] + Tail(store)[..Least(room, |Tail(store)|)]
                    else old(db)
      ensures log == if merged && unlinks then None else old(log)
      ensures DB_HEADER <= db && Authoritative(db, log, if log.None? then Trim(store) else store)
    {
      EncodeLogIsValid(db, log, store);
      merged := false;
      if last { merged := CloseMerge(truncates, room, unlinks, store); }
    }
  }

  lemma EncodeLogIsValid(db: seq<byte>, log: Option<seq<byte>>, store: Store)
    ensures LogHolds(db, log, store) ==> Authoritative(db, log, store) && LogValid(log.value)
  {
    if LogHolds(db, log, store) { EncodeLogValid(Lens(store)); }
  }

  lemma TailIs(store: Store, tail: seq<byte>)
    requires SmallStore(store) && SmallLens(Lens(store))
    requires var n := LOG_HEADER_SIZE + ENTRY_SIZE * Kept(Lens(store));
             n + TRAILER_SIZE < U32_LIMIT && tail == EncodeLog(Lens(store))[..n] + U32(n + TRAILER_SIZE)
    ensures tail == Tail(store)
  {
    TrimKeepsContent(store, 0);
    var lens := Lens(store);
    var kept := lens[..Kept(lens)];
    assert EncodeLog(lens)[..LOG_HEADER_SIZE + ENTRY_SIZE * Kept(lens)] == EncodeLog(kept);
  }

  lemma MergeFacts(db: seq<byte>, log: Option<seq<byte>>, store: Store)
    requires LogHolds(db, log, store) && DB_HEADER <= db
    ensures LogValid(log.value) && DB_HEADER_SIZE <= DataEnd(Lens(store)) <= |db|
    ensures SmallStore(store) && |Lens(store)| / MAX_SECTIONS == 0
  {
    EncodeLogValid(Lens(store));
    DataEndWithin(db, store);
  }

  lemma AfterMerge(was: seq<byte>, db: seq<byte>, store: Store, n: nat)
    requires Covers(was, store) && SmallLens(Lens(store)) && n <= |Tail(store)| && DB_HEADER <= was
    requires DB_HEADER_SIZE <= DataEnd(Lens(store)) <= |was| && db == was[..DataEnd(Lens(store))] + Tail(store)[..n]
    ensures Covers(db, store) && DB_HEADER <= db
    ensures n == |Tail(store)| ==> DbHolds(db, Trim(store))
  {
    hide Tail, DataEnd;
    CoversAfterTail(was, store, Tail(store)[..n]);
    assert db[..DB_HEADER_SIZE] == was[..DB_HEADER_SIZE];
    if n == |Tail(store)| {
      assert Tail(store)[..n] == Tail(store) == db[DataEnd(Lens(store))..];
      Merged(db, store);
    }
  }

  function Least(a: nat, b: nat): nat {
    if a < b then a else b
  }

  /** The database file after its header was written, if it was. */
  function WithHeader(db: seq<byte>, create: bool): seq<byte> {
    if !create then db else DB_HEADER + db[if |db| < DB_HEADER_SIZE then |db| else DB_HEADER_SIZE..]
  }

  /** Size of the log file. */
  function LogSize(store: Store): nat {
    LOG_HEADER_SIZE + ENTRY_SIZE * |store|
  }

  /** A new log is written whole. Or it is one byte short and stays, because it
      cannot be deleted: that byte is zero in the hole already. */
  predicate Creates(room: nat, unlinks: bool, store: Store) {
    LogSize(store) <= room || (!unlinks && store != [] && room == LogSize(store) - 1)
  }

  /** What is there is a valid log, or gives way to a new one. */
  predicate CanOpen(log: Option<seq<byte>>, mayRetry: bool, room: nat, unlinks: bool, store: Store) {
    if log.None? then Creates(room, unlinks, store)
    else LogValid(log.value) || (mayRetry && unlinks && LogSize(store) <= room)
  }

  /** What an open that fails under the exclusive lock leaves of the log: what was
      there, unless that was deleted, and of a log that was not written whole nothing,
      or what was written if it cannot be deleted. */
  function LeftLog(log: Option<seq<byte>>, mayRetry: bool, room: nat, unlinks: bool, store: Store): Option<seq<byte>> {
    if log.Some? then if mayRetry && unlinks then None else log
    else if unlinks || !SmallLens(Lens(store)) then None
    else Some(CutLog(EncodeEntries(Lens(store)), room))
  }

  /** The log file when the disk takes `room` bytes. */
  function CutLog(entries: seq<byte>, room: nat): seq<byte> {
    var body := Least(room, |entries|);
    PartialLog(entries, body, if body == |entries| then Least(room - body, LOG_HEADER_SIZE) else 0)
  }

  lemma CutLogIs(entries: seq<byte>, room: nat)
    ensures var body := Least(room, |entries|);
            var head := Least(room - body, LOG_HEADER_SIZE);
            var file := Overwrite([], LOG_HEADER_SIZE, entries[..body]);
            (if body == |entries| then Overwrite(file, 0, LOG_HEADER[..head]) else file) == CutLog(entries, room)
    ensures LOG_HEADER_SIZE + |entries| <= room ==> CutLog(entries, room) == LOG_HEADER + entries
  {
    var body := Least(room, |entries|);
    var head := Least(room - body, LOG_HEADER_SIZE);
    assert LOG_HEADER[..0] == [];
    if body > 0 { BodyWritten(entries, 0, body); }
    if LOG_HEADER_SIZE + |entries| <= room { PartialLogValidExactly(entries, body, head); }
  }

  /** A log that was cut short is valid only if it is complete all the same. */
  lemma CutLogOk(db: seq<byte>, entries: seq<byte>, room: nat, store: Store)
    requires Covers(db, store) && SmallLens(Lens(store)) && entries == EncodeEntries(Lens(store))
    ensures LogValid(CutLog(entries, room))
            <==> LogSize(store) <= room || (store != [] && room == LogSize(store) - 1)
    ensures LogValid(CutLog(entries, room)) ==> LogHolds(db, Some(CutLog(entries, room)), store)
  {
    var body := Least(room, |entries|);
    PartialLogValidExactly(entries, body, if body == |entries| then Least(room - body, LOG_HEADER_SIZE) else 0);
  }

  lemma HeaderWhole(db: seq<byte>, log: Option<seq<byte>>, store: Store)
    requires HeaderStarted(db) && Authoritative(db, log, store)
    ensures var db' := Overwrite(db, 0, DB_HEADER);
            && Authoritative(db', log, store)
            && db' == DB_HEADER + db[if |db| < DB_HEADER_SIZE then |db| else DB_HEADER_SIZE..]
  {
    var db' := Overwrite(db, 0, DB_HEADER);
    assert DB_HEADER[..DB_HEADER_SIZE] == DB_HEADER;
    HeaderWritten(db, DB_HEADER_SIZE);
    if !(DB_HEADER <= db) {
      assert |db| < DB_HEADER_SIZE;
      if Covers(db, store) { CoversNothing(db, db', store); }
    }
  }

  lemma EncodeOfStore(db: seq<byte>, log: Option<seq<byte>>, store: Store)
    requires Authoritative(db, log, store)
    ensures Covers(db, store) && SmallLens(Lens(store)) && LogValid(EncodeLog(Lens(store)))
  {
    EncodeLogValid(Lens(store));
  }

  /** Room for the log of any database. */
  const FULL_LOG := LOG_HEADER_SIZE + ENTRY_SIZE * MAX_SECTIONS

  /** Merge then create is the identity on committed content. */
  method CloseAndReopen(files: Files, ghost store: Store)
    requires LogHolds(files.db, files.log, store) && DB_HEADER <= files.db
    modifies files
    ensures LogHolds(files.db, files.log, Trim(store))
    ensures forall i: nat :: ContentAt(Trim(store), i) == ContentAt(store, i)
  {
    hide Authoritative, Tail, ContentAt, Kept;
    TailFits(store);
    var merged := files.Close(true, true, FULL_LOG + TRAILER_SIZE, true, store);
    var ready := files.Open(false, false, FULL_LOG, true, true, [], None, false, Trim(store), []);
    forall i: nat ensures ContentAt(Trim(store), i) == ContentAt(store, i) { TrimKeepsContent(store, i); }
  }

  /** An open that fails because of what another process left behind costs nothing:
      tried again once the others are gone and there is room, it succeeds, with all
      committed content. */
  method OpenAgain(files: Files, create: bool, laterDb: seq<byte>, laterLog: Option<seq<byte>>, aloneThen: bool,
                   room: nat, ghost later: Store)
    returns (first: bool, second: bool)
    requires HeaderStarted(files.db) && (create || DB_HEADER <= files.db)
    requires DB_HEADER <= laterDb && Authoritative(laterDb, laterLog, later)
    modifies files
    ensures first || second
    ensures LogHolds(files.db, files.log, later)
  {
    first := files.Open(create, false, room, true, false, laterDb, laterLog, aloneThen, [], later);
    second := false;
    if !first { second := files.Open(create, false, FULL_LOG, true, true, [], None, false, later, []); }
  }

  /** That happens: the process that was creating the log crashes after one byte of
      the header while this one waits. The retry is spent before the exclusive lock
      is granted, and the log that is there is no good. */
  method CrashedCreatorFailsOpen() returns (ok: bool)
    ensures !ok
  {
    var files := new Files(DB_HEADER, None);
    ok := files.Open(true, false, FULL_LOG, true, false, DB_HEADER, Some([76]), true, [], []);
  }

  lemma TailFits(store: Store)
    requires SmallStore(store)
    ensures |Tail(store)| <= LOG_HEADER_SIZE + ENTRY_SIZE * MAX_SECTIONS + TRAILER_SIZE
  {
  }
}
