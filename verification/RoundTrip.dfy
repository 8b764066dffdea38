// The calls of one thread, run against the heap and a database, and read back
// with an iterator.
module RoundTrip {
  import opened Layout
  import opened FileFormat
  import opened Recovery
  import opened Records
  import opened RopeOps
  import opened Buffers
  import opened Leases
  import opened Frames
  import opened Sessions
  import opened Calls
  import Scripts
  import Cursor
  import Iteration
  import IterationRuns

  ghost function WorldOf(session: Session): World
    requires session.Valid()
    reads session, session.heap, session.database
  {
    World(session.View(), session.places, session.database.Content())
  }

  lemma EntriesAreLengths(db: Database)
    requires db.Valid()
    ensures |db.Content()| == |db.entries|
    ensures forall disk, size :: Grants(db.entries, disk, size) <==> Granted(db.Content(), disk, size)
  {
    SectionsCovered(db.file, db.entries);
    forall disk: Disk, size: nat ensures Grants(db.entries, disk, size) <==> Granted(db.Content(), disk, size) {
      if disk.section < |db.entries| { assert |db.Content()[disk.section]| == db.entries[disk.section]; }
    }
  }

  /** `logdb_put` on buffers that the caller frees right away. */
  method RunPut(session: Session, r: Record, disk: Disk)
    requires session.Valid() && Sound(Do(Scripts.Put(r), disk))
    modifies session, session.heap, session.database
    ensures session.Valid() && WorldOf(session) == Called(old(WorldOf(session)), Do(Scripts.Put(r), disk))
    ensures old(session.database.Synced()) ==> session.database.Synced()
  {
    hide HeapOk, Live, Heads, Refs, FramesOk, SeesSame, InDb, SmallLens, Grants, Granted, Placed, Built, Fits;
    EntriesAreLengths(session.database);
    PushedView(session.View(), Built(r));
    var key := session.UserBuffer(r.key);
    ghost var h, rank, held := session.heap.Here(), session.heap.rank, session.others;
    var value := session.UserBuffer(r.value);
    Sees(held, h, rank, session.heap.Here(), session.heap.rank, key);
    var ok := session.Put(key, value, disk);
    session.Release(value);
    session.Release(key);
  }

  method RunCall(session: Session, c: Call)
    requires session.Valid() && Sound(c)
    modifies session, session.heap, session.database
    ensures session.Valid() && WorldOf(session) == Called(old(WorldOf(session)), c)
    ensures old(session.database.Synced()) ==> session.database.Synced()
  {
    hide HeapOk, Live, Heads, Refs, FramesOk, SeesSame, InDb, SmallLens, Grants, Granted, Placed, Fits;
    EntriesAreLengths(session.database);
    match c {
      case AddSection => if |session.database.entries| + 1 < MAX_SECTIONS { session.database.AddSection(); }
      case Do(op, disk) =>
        match op {
          case Begin => session.Begin();
          case Rollback => var ok := session.Rollback();
          case Commit => var ok := session.Commit(disk);
          case Put(r) => RunPut(session, r, disk);
        }
    }
  }

  method RunAll(session: Session, calls: seq<Call>)
    requires session.Valid() && AllSound(calls)
    modifies session, session.heap, session.database
    ensures session.Valid() && WorldOf(session) == RunCalls(old(WorldOf(session)), calls)
    ensures old(session.database.Synced()) ==> session.database.Synced()
  {
    hide HeapOk, Live, Heads, Refs, FramesOk, InDb, SmallLens, Called, Sound;
    var k := 0;
    ghost var w := WorldOf(session);
    assert calls[0..] == calls;
    while k < |calls|
      invariant k <= |calls| && session.Valid()
      invariant RunCalls(WorldOf(session), calls[k..]) == RunCalls(w, calls)
      invariant old(session.database.Synced()) ==> session.database.Synced()
    {
      assert calls[k..][1..] == calls[k + 1..] && calls[k..][0] == calls[k];
      RunCall(session, calls[k]);
      k := k + 1;
    }
  }

  /** Put, then iterate, on a database that may hold records already. Commits may
      go to any sections and may fail. If and only if none of them fills its section
      to the last byte, each section then holds what it held at first and what was
      committed to it, in order; the iterator returns the records of the sections.
      Unless a transaction overflows, which fewer than 2^32 bytes cannot do, those
      are the earlier ones and exactly those of the puts that succeed and whose
      transactions commit. */
  method PutThenIterate(db: Database, calls: seq<Call>) returns (records: seq<Record>, ghost w: World)
    requires db.Valid() && Cursor.WholeStore(db.Content()) && AllSound(calls)
    modifies db
    ensures db.Valid() && w == RunCalls(Start(old(db.Content())), calls) && db.Content() == w.content
    ensures Laid(old(db.Content()), w) <==> NoneFills(Start(old(db.Content())), calls)
    ensures Cursor.WholeStore(w.content) && records == Cursor.AllRecords(w.content, 0)
    ensures CallsSize(calls) < U32_LIMIT ==> NoOverflow(Start(old(db.Content())), calls)
    ensures NoOverflow(Start(old(db.Content())), calls) && NoneFills(Start(old(db.Content())), calls) ==>
              multiset(records) == multiset(Cursor.AllRecords(old(db.Content()), 0))
                                   + multiset(Scripts.Surviving(Succeeding(Start(old(db.Content())), calls), 0))
  {
    hide HeapOk, Live, Heads, Refs, FramesOk, InDb, Sections, SmallLens, Laid, NoOverflow, NoneFills, Called, Sound;
    ghost var base := db.Content();
    var heap := new BufferHeap();
    var session := new Session(heap, db);
    RunAll(session, calls);
    w := WorldOf(session);
    AboutRun(base, calls);
    var iter := new Iteration.Iterator(db);
    ghost var snapshot, moments, end;
    records, snapshot, moments, end := IterationRuns.ReadAll(iter, []);
  }

  /** When one section holds everything, the records come back in program order. */
  method PutThenIterateInOrder(ops: seq<Scripts.Op>) returns (records: seq<Record>)
    requires Scripts.AllStorable(ops) && ScriptSize(ops) < SECTION_SIZE
    ensures records == Scripts.Surviving(ops, 0)
  {
    hide HeapOk, Live, InDb, SmallLens, Laid, NoOverflow, NoneFills, RunCalls, AllSound, Succeeding;
    var db := new Database();
    db.AddSection();
    InOrder(ops);
    assert db.Content() == [[]] && Cursor.WholeStore([[]]);
    ghost var w;
    records, w := PutThenIterate(db, OnGoodDisk(ops));
  }

  /** When two records fill the section to its last byte, both puts report success,
      and nothing comes back. */
  method PutThenIterateFull(r1: Record, r2: Record) returns (records: seq<Record>)
    requires Storable(r1) && Storable(r2) && |Encode(r1)| + |Encode(r2)| == SECTION_SIZE
    ensures records == []
  {
    hide HeapOk, Live, InDb, SmallLens, Laid, NoOverflow, NoneFills, RunCalls, AllSound, Succeeding, Encode;
    var db := new Database();
    db.AddSection();
    FillingLosesBoth(r1, r2);
    assert db.Content() == [[]] && Cursor.WholeStore([[]]);
    ghost var w;
    records, w := PutThenIterate(db, OnGoodDisk([Scripts.Put(r1), Scripts.Put(r2)]));
    OneSection([]);
  }
}
