// Every file operation keeps one of the two files authoritative; so recovery
// finds exactly what was published, in every reachable state.
module RecoveryProofs {
  import opened Bytes
  import opened Layout
  import opened FileFormat
  import opened Recovery

  // ---------------------------------------------------- database header

  lemma HeaderWritten(db: seq<byte>, n: nat)
    requires HeaderStarted(db) && n <= DB_HEADER_SIZE
    ensures var db' := Overwrite(db, 0, DB_HEADER[..n]);
            HeaderStarted(db') && (DB_HEADER <= db ==> db' == db) && (!(DB_HEADER <= db) ==> |db'| <= DB_HEADER_SIZE)
  {
    var db' := Overwrite(db, 0, DB_HEADER[..n]);
    forall k | 0 <= k < |db'| && k < DB_HEADER_SIZE ensures db'[k] == DB_HEADER[k] {
      if k < n {
        assert db'[0..n][k] == DB_HEADER[k];
      } else {
        assert db'[k] == db[k];
      }
    }
    if DB_HEADER <= db { assert db' == db; }
  }

  lemma CoversNothing(db: seq<byte>, db': seq<byte>, store: Store)
    requires Covers(db, store) && |db| <= DB_HEADER_SIZE
    ensures Covers(db', store)
  {
    forall i | 0 <= i < |store| ensures SectionAt(db', i, store[i]) { assert SectionAt(db, i, store[i]); }
  }

  lemma WriteDbHeaderKeeps(s: State, n: nat)
    requires Inv(s) && n <= DB_HEADER_SIZE
    ensures Inv(Next(s, WriteDbHeader(n)))
  {
    HeaderWritten(s.db, n);
    if !(DB_HEADER <= s.db) {
      assert |s.db| < DB_HEADER_SIZE;
      if Covers(s.db, s.store) { CoversNothing(s.db, Next(s, WriteDbHeader(n)).db, s.store); }
    }
  }

  // ------------------------------------------------------- log creation

  lemma BodyWritten(entries: seq<byte>, from: nat, to: nat)
    requires from < to <= |entries|
    ensures Overwrite(PartialLog(entries, from, 0), LOG_HEADER_SIZE + from, entries[from..to])
            == PartialLog(entries, to, 0)
  {
    assert LOG_HEADER[..0] == [];
    var before := if from == 0 then [] else Zeros(LOG_HEADER_SIZE) + entries[..from];
    var r := Overwrite(before, LOG_HEADER_SIZE + from, entries[from..to]);
    var after := Zeros(LOG_HEADER_SIZE) + entries[..to];
    var at := LOG_HEADER_SIZE + from;
    assert |r| == |after|;
    forall k | 0 <= k < |r| ensures r[k] == after[k] {
      if k >= at {
        assert r[k] == r[at..at + |entries[from..to]|][k - at] == entries[from..to][k - at];
      } else if k < |before| {
        assert r[k] == before[k];
      } else {
        assert r[k] == 0;
      }
    }
    assert r == after;
  }

  lemma PartialBytes(entries: seq<byte>, body: nat, head: nat)
    requires body <= |entries| && head <= LOG_HEADER_SIZE
    ensures var r := PartialLog(entries, body, head);
            && |r| == (if body > 0 then LOG_HEADER_SIZE + body else head)
            && (forall k :: 0 <= k < head ==> r[k] == LOG_HEADER[k])
            && (forall k :: head <= k < |r| && k < LOG_HEADER_SIZE ==> r[k] == 0)
            && (forall k :: LOG_HEADER_SIZE <= k < |r| ==> r[k] == entries[k - LOG_HEADER_SIZE])
  {
    hide Overwrite;
    var r := PartialLog(entries, body, head);
    forall k | 0 <= k < head ensures r[k] == LOG_HEADER[k] { assert r[0..head][k] == LOG_HEADER[..head][k]; }
  }

  lemma HeadWritten(entries: seq<byte>, from: nat, to: nat)
    requires from < to <= LOG_HEADER_SIZE
    ensures Overwrite(PartialLog(entries, |entries|, from), from, LOG_HEADER[from..to])
            == PartialLog(entries, |entries|, to)
  {
    var before, after := PartialLog(entries, |entries|, from), PartialLog(entries, |entries|, to);
    PartialBytes(entries, |entries|, from);
    PartialBytes(entries, |entries|, to);
    var r := Overwrite(before, from, LOG_HEADER[from..to]);
    forall k | 0 <= k < |r| ensures r[k] == after[k] {
      if from <= k < to { assert r[from..to][k - from] == LOG_HEADER[from..to][k - from]; }
    }
    assert r == after;
  }

  /** A log file under construction validates only once all its bytes are right:
      with the header complete, or one byte short of it when that byte is already
      the zero of the hole. */
  lemma PartialLogValidExactly(entries: seq<byte>, body: nat, head: nat)
    requires body <= |entries| && head <= LOG_HEADER_SIZE
    requires head > 0 ==> body == |entries|
    ensures LogValid(PartialLog(entries, body, head))
            <==> head == LOG_HEADER_SIZE || (head == LOG_HEADER_SIZE - 1 && body > 0)
    ensures LogValid(PartialLog(entries, body, head)) ==> PartialLog(entries, body, head) == LOG_HEADER + entries
  {
    PartialBytes(entries, body, head);
    var r := PartialLog(entries, body, head);
    assert body > 0 && head < LOG_HEADER_SIZE - 1 ==> r[..LOG_HEADER_SIZE][4] == 0 != LOG_HEADER[4];
    if head == LOG_HEADER_SIZE || (head == LOG_HEADER_SIZE - 1 && body > 0) {
      assert r[..LOG_HEADER_SIZE] == LOG_HEADER;
      assert r == LOG_HEADER + entries;
    }
  }

  lemma CreateBodyKeeps(s: State, to: nat)
    requires Inv(s) && Enabled(s, CreateBody(to))
    ensures Inv(Next(s, CreateBody(to)))
  {
    BodyWritten(EntriesOf(s.db), s.phase.body, to);
  }

  lemma CreateHeaderKeeps(s: State, to: nat)
    requires Inv(s) && Enabled(s, CreateHeader(to))
    ensures Inv(Next(s, CreateHeader(to)))
  {
    HeadWritten(EntriesOf(s.db), s.phase.head, to);
  }

  lemma SourceEntries(db: seq<byte>, store: Store)
    requires DbHolds(db, store)
    ensures Covers(db, store) && SmallLens(Lens(store)) && EntriesOf(db) == EncodeEntries(Lens(store))
    ensures LOG_HEADER + EntriesOf(db) == EncodeLog(Lens(store))
  {
  }

  /** A process that stops anywhere in log creation leaves an intact source. */
  lemma CreateStops(s: State)
    requires Inv(s) && s.phase.Creating?
    ensures Authoritative(s.db, s.log, s.store)
    ensures s.phase.head == LOG_HEADER_SIZE ==> LogHolds(s.db, s.log, s.store)
  {
    SourceEntries(s.db, s.store);
    PartialLogValidExactly(EntriesOf(s.db), s.phase.body, s.phase.head);
  }

  lemma OpenBeginKeeps(s: State)
    requires Inv(s) && Enabled(s, OpenBegin)
    ensures Inv(Next(s, OpenBegin))
  {
    if s.log.None? { assert PartialLog(EntriesOf(s.db), 0, 0) == []; }
  }

  // -------------------------------------------------------------- in use

  lemma ExtendKeeps(s: State)
    requires Inv(s) && Enabled(s, Extend)
    ensures Inv(Next(s, Extend))
  {
    AppendEntry(Lens(s.store));
    assert Lens(s.store + [[]]) == Lens(s.store) + [0];
    forall i | 0 <= i < |s.store| + 1 ensures SectionAt(s.db, i, (s.store + [[]])[i]) {
      if i < |s.store| { assert SectionAt(s.db, i, s.store[i]); }
    }
  }

  lemma WriteSectionKeeps(s: State, i: nat, at: nat, data: seq<byte>)
    requires Inv(s) && Enabled(s, WriteSection(i, at, data))
    ensures Inv(Next(s, WriteSection(i, at, data)))
  {
    WriteAbove(s.db, s.store, i, at, data);
    var db' := Overwrite(s.db, SectionStart(i) + at, data);
    assert db'[..DB_HEADER_SIZE] == s.db[..DB_HEADER_SIZE];
  }

  lemma PublishKeeps(s: State, i: nat, data: seq<byte>)
    requires Inv(s) && Enabled(s, Publish(i, data))
    ensures Inv(Next(s, Publish(i, data)))
  {
    var grown := s.store[i] + data;
    WriteEntry(Lens(s.store), i, |grown|);
    assert Lens(s.store[i := grown]) == Lens(s.store)[i := |grown|];
    var store := s.store[i := grown];
    forall j | 0 <= j < |s.store| ensures SectionAt(s.db, j, store[j]) { assert SectionAt(s.db, j, s.store[j]); }
  }

  // ------------------------------------------------------------- merging

  lemma SectionWithin(db: seq<byte>, store: Store, i: nat)
    requires Covers(db, store) && i < |store|
    ensures store[i] != [] ==>
              && i < Kept(Lens(store))
              && SectionStart(i) + |store[i]| <= DataEnd(Lens(store)) <= |db|
    ensures DB_HEADER_SIZE <= |db| ==> DB_HEADER_SIZE <= DataEnd(Lens(store)) <= |db|
  {
    var lens := Lens(store);
    var last := Kept(lens) - 1;
    if last >= 0 { assert SectionAt(db, last, store[last]); }
    assert SectionAt(db, i, store[i]);
    if store[i] != [] && i < last { assert SectionStart(i) + SECTION_SIZE <= SectionStart(last); }
  }

  lemma DataEndWithin(db: seq<byte>, store: Store)
    requires Covers(db, store) && DB_HEADER <= db
    ensures DB_HEADER_SIZE <= DataEnd(Lens(store)) <= |db|
  {
    if |store| > 0 { SectionWithin(db, store, 0); }
  }

  lemma CoversAfterTail(db: seq<byte>, store: Store, tail: seq<byte>)
    requires Covers(db, store) && DataEnd(Lens(store)) <= |db|
    ensures Covers(db[..DataEnd(Lens(store))] + tail, store)
  {
    var db' := db[..DataEnd(Lens(store))] + tail;
    forall i | 0 <= i < |store| ensures SectionAt(db', i, store[i]) {
      assert SectionAt(db, i, store[i]);
      SectionWithin(db, store, i);
      if store[i] != [] {
        assert db'[SectionStart(i)..SectionStart(i) + |store[i]|] == db[SectionStart(i)..SectionStart(i) + |store[i]|];
      }
    }
  }

  /** Truncation removes no committed byte. */
  lemma MergeBeginKeeps(s: State)
    requires Inv(s) && Enabled(s, MergeBegin)
    ensures Inv(Next(s, MergeBegin))
    ensures Covers(Next(s, MergeBegin).db, s.store)
  {
    DataEndWithin(s.db, s.store);
    CoversAfterTail(s.db, s.store, []);
    var n := DataEnd(Lens(s.store));
    assert s.db[..n] + [] == s.db[..n] == Truncate(s.db, n);
    assert s.db[..n][..DB_HEADER_SIZE] == DB_HEADER;
  }

  lemma MergeWriteKeeps(s: State, to: nat)
    requires Inv(s) && Enabled(s, MergeWrite(to))
    ensures Inv(Next(s, MergeWrite(to)))
  {
    TailGrows(s.db, s.store, DataEnd(Lens(s.store)), s.phase.written, to);
  }

  lemma TailGrows(db: seq<byte>, store: Store, n: nat, from: nat, to: nat)
    requires SmallStore(store) && Covers(db, store) && from < to <= |Tail(store)|
    requires n == DataEnd(Lens(store)) && n + from == |db| && db[n..] == Tail(store)[..from]
    ensures Covers(db + Tail(store)[from..to], store)
    ensures (db + Tail(store)[from..to])[n..] == Tail(store)[..to]
  {
    hide Tail, DataEnd;
    var db' := db + Tail(store)[from..to];
    CoversAfterTail(db, store, Tail(store)[..to]);
    assert db'[n..] == Tail(store)[..from] + Tail(store)[from..to] == Tail(store)[..to];
    assert db' == db[..n] + Tail(store)[..to];
  }

  lemma MergeUnlinkKeeps(s: State)
    requires Inv(s) && Enabled(s, MergeUnlink)
    ensures Inv(Next(s, MergeUnlink))
  {
    DataEndWithin(s.db, s.store);
    Merged(s.db, s.store);
  }

  /** A database that ends with the tail of a merge needs no log file. */
  lemma Merged(db: seq<byte>, store: Store)
    requires Covers(db, store) && SmallLens(Lens(store)) && DB_HEADER_SIZE <= DataEnd(Lens(store)) <= |db|
    requires db[DataEnd(Lens(store))..] == Tail(store)
    ensures DbHolds(db, Trim(store))
  {
    hide Kept, DataEnd;
    TrimKeepsContent(store, 0);
    var n := DataEnd(Lens(store));
    assert db == db[..n] + db[n..];
    EmbeddedRoundTrip(db[..n], Lens(Trim(store)));
    forall i | 0 <= i < |Trim(store)| ensures SectionAt(db, i, Trim(store)[i]) { assert SectionAt(db, i, store[i]); }
  }

  // ------------------------------------------------------------ all runs

  lemma InvStep(s: State, a: Action)
    requires Inv(s) && Enabled(s, a)
    ensures Inv(Next(s, a))
  {
    hide Inv, Enabled, Next;
    match a
    case WriteDbHeader(n) => HeaderBounds(s, n); WriteDbHeaderKeeps(s, n);
    case OpenBegin => OpenBeginKeeps(s);
    case CreateBody(to) => CreateBodyKeeps(s, to);
    case CreateHeader(to) => CreateHeaderKeeps(s, to);
    case Extend => ExtendKeeps(s);
    case WriteSection(i, at, data) => WriteSectionKeeps(s, i, at, data);
    case Publish(i, data) => PublishKeeps(s, i, data);
    case MergeBegin => MergeBeginKeeps(s);
    case MergeWrite(to) => MergeWriteKeeps(s, to);
    case MergeUnlink => MergeUnlinkKeeps(s);
    case CreateFail => CreateFailKeeps(s);
    case _ => LeaveKeeps(s, a);
  }

  lemma HeaderBounds(s: State, n: nat)
    requires Enabled(s, WriteDbHeader(n))
    ensures n <= DB_HEADER_SIZE
  {
  }

  lemma CreateFailKeeps(s: State)
    requires Inv(s) && Enabled(s, CreateFail)
    ensures Inv(Next(s, CreateFail))
  {
  }

  lemma LeaveKeeps(s: State, a: Action)
    requires Inv(s) && Enabled(s, a)
    requires a.CreateDone? || a.Join? || a.Leave? || a.MergeFail? || a.Crash?
    ensures Inv(Next(s, a))
  {
    if s.phase.Creating? {
      CreateStops(s);
    } else if s.phase.Merging? || s.phase.Open? {
      assert LogHolds(s.db, s.log, s.store) && LogValid(s.log.value);
    }
  }

  lemma {:induction false} InvRun(s: State, actions: seq<Action>)
    requires Inv(s) && IsRun(s, actions)
    ensures Inv(After(s, actions))
    decreases |actions|
  {
    if actions != [] {
      InvStep(s, actions[0]);
      InvRun(Next(s, actions[0]), actions[1..]);
    }
  }

  lemma SectionsOfCover(db: seq<byte>, store: Store)
    requires Covers(db, store)
    ensures InDb(db, Lens(store)) && Sections(db, Lens(store)) == store
  {
    forall i | 0 <= i < |store|
      ensures store[i] != [] ==> SectionStart(i) + |store[i]| <= |db|
                                 && db[SectionStart(i)..SectionStart(i) + |store[i]|] == store[i]
    {
      assert SectionAt(db, i, store[i]);
    }
  }

  lemma HoldsRecovers(db: seq<byte>, log: Option<seq<byte>>, store: Store)
    requires Authoritative(db, log, store)
    ensures Recover(db, log) == Some(store)
  {
    if log.Some? && LogValid(log.value) {
      EncodeLogValid(Lens(store));
    } else {
      SourceEntries(db, store);
      assert |db| < MIN_SIZE ==> Lens(store) == [];
    }
    EntriesRoundTrip(Lens(store));
    assert RecoveredEntries(db, log) == Some(Lens(store));
    SectionsOfCover(db, store);
  }

  lemma InvRecovers(s: State)
    requires Inv(s)
    ensures Recover(s.db, s.log) == Some(s.store)
  {
    if s.phase.Creating? {
      CreateStops(s);
    } else if !s.phase.Closed? {
      EncodeLogValid(Lens(s.store));
    }
    HoldsRecovers(s.db, s.log, s.store);
  }

  // ------------------------------------------------------------ theorems

  /** Everything published to section `i` in a run, in order. */
  function Published(actions: seq<Action>, i: nat): seq<byte> {
    if actions == [] then []
    else (if actions[0].Publish? && actions[0].i == i then actions[0].data else []) + Published(actions[1..], i)
  }

  lemma StoreStep(s: State, a: Action, i: nat)
    requires Enabled(s, a)
    ensures ContentAt(Next(s, a).store, i)
            == ContentAt(s.store, i) + (if a.Publish? && a.i == i then a.data else [])
  {
    if a.MergeUnlink? { TrimKeepsContent(s.store, i); }
  }

  lemma {:induction false} StoreRun(s: State, actions: seq<Action>, i: nat)
    requires IsRun(s, actions)
    ensures ContentAt(After(s, actions).store, i) == ContentAt(s.store, i) + Published(actions, i)
    decreases |actions|
  {
    hide Enabled, Next, ContentAt;
    if actions != [] {
      StoreStep(s, actions[0], i);
      StoreRun(Next(s, actions[0]), actions[1..], i);
      var a := actions[0];
      var now := if a.Publish? && a.i == i then a.data else [];
      assert Published(actions, i) == now + Published(actions[1..], i);
      assert ContentAt(s.store, i) + (now + Published(actions[1..], i))
             == (ContentAt(s.store, i) + now) + Published(actions[1..], i);
    }
  }

  /** Stop all processes after any run of opens, writes, commits, closes and
      crashes: the next open finds, for every section, exactly the transactions
      whose log entry was written, each whole and in order. */
  lemma RecoveryYieldsPublished(actions: seq<Action>, i: nat)
    requires IsRun(Init(), actions)
    ensures var s := After(Init(), actions);
            Recover(s.db, s.log).Some? && ContentAt(Recover(s.db, s.log).value, i) == Published(actions, i)
  {
    InvRun(Init(), actions);
    InvRecovers(After(Init(), actions));
    StoreRun(Init(), actions, i);
  }

  lemma InvOpens(s: State)
    requires Inv(s)
    ensures s.phase.Closed? && DB_HEADER <= s.db ==> Enabled(s, OpenBegin)
    ensures (s.log.Some? && LogValid(s.log.value)) || (|s.db| < MIN_SIZE && s.store == []) || ReadEmbedded(s.db).Found?
  {
    if s.phase.Open? || s.phase.Merging? { EncodeLogValid(Lens(s.store)); }
  }

  /** The files are never left in a state that an open cannot work with. */
  lemma OpenAlwaysPossible(actions: seq<Action>)
    requires IsRun(Init(), actions)
    ensures var s := After(Init(), actions);
            && (s.phase.Closed? && DB_HEADER <= s.db ==> Enabled(s, OpenBegin))
            && ((s.log.Some? && LogValid(s.log.value))
                || (|s.db| < MIN_SIZE && s.store == []) || ReadEmbedded(s.db).Found?)
  {
    InvRun(Init(), actions);
    InvOpens(After(Init(), actions));
  }
}
