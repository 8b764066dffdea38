// A whole iteration while other threads commit.
module IterationRuns {
  import opened Bytes
  import opened Layout
  import opened FileFormat
  import opened Recovery
  import opened Records
  import opened Cursor
  import opened Leases
  import opened Iteration

  /** What other threads do to the log: a commit, or a section for the next one. */
  datatype Event = Commit(index: nat, data: seq<byte>) | NewSection

  /** What happens around the reading of one record: before `logdb_iter_next`,
      before its key is read, and before its value is read. */
  datatype Gap = Gap(beforeNext: seq<Event>, beforeKey: seq<Event>, beforeValue: seq<Event>)

  /** `after` holds everything that `before` holds, section by section. */
  predicate Grown(before: Store, after: Store) {
    |before| <= |after| && forall i :: 0 <= i < |before| ==> before[i] <= after[i]
  }

  predicate Fits(content: Store, e: Event) {
    match e
    case Commit(index, data) => index < |content| && |content[index]| + |data| <= SECTION_SIZE
    case NewSection => |content| + 1 < MAX_SECTIONS
  }

  function Applied(content: Store, e: Event): Store {
    if !Fits(content, e) then content
    else if e.NewSection? then content + [[]]
    else Placed(content, e.index, e.data)
  }

  /** The one event that takes something away. */
  predicate Fills(content: Store, e: Event) {
    e.Commit? && FillsSection(content, e.index, |e.data|)
  }

  predicate NoneFill(content: Store, events: seq<Event>)
    decreases |events|
  {
    events == [] || (!Fills(content, events[0]) && NoneFill(Applied(content, events[0]), events[1..]))
  }

  function After(content: Store, events: seq<Event>): Store
    decreases |events|
  {
    if events == [] then content else After(Applied(content, events[0]), events[1..])
  }

  predicate WholeEvents(events: seq<Event>) {
    forall k :: 0 <= k < |events| && events[k].Commit? ==> Whole(events[k].data)
  }

  predicate WholeGaps(gaps: seq<Gap>) {
    forall k :: 0 <= k < |gaps| ==>
      WholeEvents(gaps[k].beforeNext) && WholeEvents(gaps[k].beforeKey) && WholeEvents(gaps[k].beforeValue)
  }

  function AllEvents(gaps: seq<Gap>): seq<Event> {
    if gaps == [] then []
    else gaps[0].beforeNext + (gaps[0].beforeKey + gaps[0].beforeValue) + AllEvents(gaps[1..])
  }

  lemma {:induction false} AfterBoth(content: Store, a: seq<Event>, b: seq<Event>)
    ensures After(content, a + b) == After(After(content, a), b)
    ensures NoneFill(content, a + b) <==> NoneFill(content, a) && NoneFill(After(content, a), b)
    decreases |a|
  {
    if a == [] {
      assert a + b == b;
    } else {
      AfterBoth(Applied(content, a[0]), a[1..], b);
      assert (a + b)[1..] == a[1..] + b;
    }
  }

  /** Each section of the snapshot as it was after so many of the events, later
      sections no earlier. */
  ghost predicate IsSnapshot(first: Store, events: seq<Event>, moments: seq<nat>, snapshot: Store) {
    && |moments| == |snapshot|
    && (forall i :: 0 <= i < |snapshot| ==> WasThere(first, events, moments[i], snapshot[i], i))
    && (forall i, j :: 0 <= i < j < |moments| ==> moments[i] <= moments[j])
  }

  predicate WasThere(first: Store, events: seq<Event>, moment: nat, section: seq<byte>, i: nat) {
    && moment <= |events|
    && i < |After(first, events[..moment])| && After(first, events[..moment])[i] == section
  }

  lemma SnapshotLater(first: Store, events: seq<Event>, more: seq<Event>, moments: seq<nat>, snapshot: Store)
    requires IsSnapshot(first, events, moments, snapshot)
    ensures IsSnapshot(first, events + more, moments, snapshot)
  {
    forall i | 0 <= i < |snapshot| ensures WasThere(first, events + more, moments[i], snapshot[i], i) {
      assert WasThere(first, events, moments[i], snapshot[i], i);
      assert (events + more)[..moments[i]] == events[..moments[i]];
    }
  }

  /** The sections passed now are as they are now. */
  lemma SnapshotNow(first: Store, events: seq<Event>, moments: seq<nat>, snapshot: Store, longer: Store)
    requires IsSnapshot(first, events, moments, snapshot) && snapshot <= longer
    requires |longer| <= |After(first, events)|
    requires forall i :: |snapshot| <= i < |longer| ==> longer[i] == After(first, events)[i]
    ensures IsSnapshot(first, events, moments + seq(|longer| - |snapshot|, _ => |events|), longer)
  {
    var later := moments + seq(|longer| - |snapshot|, _ => |events|);
    assert events[..|events|] == events;
    forall i | 0 <= i < |longer| ensures WasThere(first, events, later[i], longer[i], i) {
      if i < |snapshot| { assert WasThere(first, events, moments[i], snapshot[i], i); }
    }
    forall i, j | 0 <= i < j < |later| ensures later[i] <= later[j] {
      if i < |snapshot| { assert WasThere(first, events, moments[i], snapshot[i], i); }
    }
  }

  lemma EntriesAre(db: Database)
    requires db.Valid()
    ensures |db.Content()| == |db.entries|
    ensures forall i :: 0 <= i < |db.entries| ==> |db.Content()[i]| == db.entries[i] < SECTION_SIZE
  {
    SectionsCovered(db.file, db.entries);
  }

  /** Another thread commits (bytes first, entry second) or appends a section. */
  method ChangeElsewhere(db: Database, e: Event)
    requires db.Valid()
    modifies db
    ensures db.Valid() && db.Content() == Applied(old(db.Content()), e)
    ensures old(db.Synced()) ==> db.Synced()
  {
    hide Overwrite, SectionStart, InDb, Sections, SmallLens, Placed;
    EntriesAre(db);
    if e.NewSection? {
      if |db.entries| + 1 < MAX_SECTIONS { db.AddSection(); }
      return;
    }
    var entry := db.ReadEntry(e.index);
    if entry.None? || entry.value + |e.data| > SECTION_SIZE { return; }
    var lease := new Lease();
    lease.connection, lease.index, lease.offset, lease.len := db, e.index, entry.value, |e.data|;
    ghost var file, entries := db.file, db.entries;
    var notWritten := lease.Write(e.data, |e.data|);
    assert e.data[..|e.data|] == e.data;
    WrittenBehind(file, entries, e.index, e.data, db.file);
    var synced := db.Sync(true);
    db.WriteEntry(e.index, StoredLength(lease.offset));
  }

  // ------------------------------------------------- records of a snapshot

  lemma {:induction false} AllRecordsConcat(a: Store, b: Store, i: nat)
    requires WholeStore(a) && WholeStore(b) && i <= |a|
    ensures WholeStore(a + b) && AllRecords(a + b, i) == AllRecords(a, i) + AllRecords(b, 0)
    decreases |a| - i
  {
    AllRecordsShift(a, b, 0);
    if i < |a| { AllRecordsConcat(a, b, i + 1); }
  }

  lemma {:induction false} AllRecordsShift(a: Store, b: Store, j: nat)
    requires WholeStore(a) && WholeStore(b)
    ensures WholeStore(a + b) && AllRecords(a + b, |a| + j) == AllRecords(b, j)
    decreases |b| - j
  {
    hide Whole, RecordsOf;
    forall i | 0 <= i < |a + b| ensures Whole((a + b)[i]) {
      if i >= |a| { assert (a + b)[i] == b[i - |a|]; }
    }
    if j < |b| { AllRecordsShift(a, b, j + 1); }
  }

  /** Sections `from` up to and including the next one with data. */
  function Passed(content: Store, from: nat): Store
    requires from <= |content|
  {
    var i := NextNonEmpty(content, from);
    content[from..if i < |content| then i + 1 else |content|]
  }

  lemma NoRecords()
    ensures Whole([]) && RecordsOf([]) == []
  {
  }

  lemma {:induction false} PassedRecords(content: Store, from: nat)
    requires WholeStore(content) && from <= |content|
    ensures WholeStore(Passed(content, from))
    ensures var i := NextNonEmpty(content, from);
            AllRecords(Passed(content, from), 0) == if i < |content| then RecordsOf(content[i]) else []
    decreases |content| - from
  {
    NoRecords();
    hide Whole, RecordsOf;
    var passed := Passed(content, from);
    if from < |content| {
      assert passed == [content[from]] + passed[1..];
      assert WholeStore([content[from]]) && WholeStore(passed[1..]);
      AllRecordsConcat([content[from]], passed[1..], 0);
      assert AllRecords([content[from]], 1) == [];
      if content[from] == [] {
        PassedRecords(content, from + 1);
        assert passed[1..] == Passed(content, from + 1);
      } else {
        assert passed[1..] == [] && AllRecords(passed[1..], 0) == [];
      }
    }
  }

  /** `seen` are the records of `snapshot` up to the cursor, and each section of it
      lies between what it was at first and what it is now; `IsSnapshot` has the
      moments. */
  ghost predicate Progress(c: Cursor, seen: seq<Record>, snapshot: Store, first: Store, now: Store)
    requires CursorOk(c)
  {
    && WholeStore(snapshot) && |snapshot| <= |now|
    && (forall i :: 0 <= i < |snapshot| ==> snapshot[i] <= now[i] && (i < |first| ==> first[i] <= snapshot[i]))
    && (if c.leased then
          && Current(c) && c.key && c.value && |snapshot| == c.index + 1
          && Whole(c.taken[RecordEnd(c)..])
          && seen + RecordsOf(c.taken[RecordEnd(c)..]) == AllRecords(snapshot, 0)
        else snapshot == [] && seen == [])
  }

  lemma ProgressGrows(c: Cursor, seen: seq<Record>, snapshot: Store, first: Store, now: Store, later: Store)
    requires CursorOk(c) && Progress(c, seen, snapshot, first, now) && Grown(now, later)
    ensures Progress(c, seen, snapshot, first, later)
  {
    forall i | 0 <= i < |snapshot| ensures snapshot[i] <= later[i] {
      assert snapshot[i] <= now[i] && now[i] <= later[i];
    }
  }

  /** The cursor moves to the next record of its section. */
  lemma ProgressWithin(c: Cursor, seen: seq<Record>, snapshot: Store, first: Store, now: Store)
    requires CursorOk(c) && WholeStore(now) && Progress(c, seen, snapshot, first, now)
    requires c.leased && RecordEnd(c) < |c.taken|
    ensures var d := AtRecord(c.index, c.taken, RecordEnd(c));
            && Step(c, now) == (d, true) && CursorOk(d) && Current(d)
            && Progress(Choose(d, KeyAndValue), seen + [CurrentRecord(d)], snapshot, first, now)
  {
    hide Position, KeyLen, ValueLen, FirstRecord, Size, AllRecords;
    StepWithin(c, now);
    var d := AtRecord(c.index, c.taken, RecordEnd(c));
    RestIsWhole(d);
    assert RecordEnd(Choose(d, KeyAndValue)) == RecordEnd(d);
    assert seen + ([CurrentRecord(d)] + RecordsOf(d.taken[RecordEnd(d)..]))
           == (seen + [CurrentRecord(d)]) + RecordsOf(d.taken[RecordEnd(d)..]);
  }

  ghost function NextFrom(c: Cursor): nat {
    if c.leased then c.index + 1 else 0
  }

  lemma AllSeen(c: Cursor, seen: seq<Record>, snapshot: Store, first: Store, now: Store)
    requires CursorOk(c) && WholeStore(now) && Progress(c, seen, snapshot, first, now)
    requires c.leased ==> RecordEnd(c) == |c.taken|
    ensures Step(c, now) == StepTo(c, now, NextNonEmpty(now, NextFrom(c)))
    ensures seen == AllRecords(snapshot, 0) && |snapshot| == NextFrom(c) <= |now|
  {
    if c.leased {
      assert c.taken[RecordEnd(c)..] == [];
      PositionAfterAll(c);
    }
  }

  lemma PositionAfterAll(c: Cursor)
    requires CursorOk(c) && Current(c) && c.key && c.value
    ensures Position(c) == RecordEnd(c)
  {
  }

  /** The cursor moves to another section. */
  lemma ProgressAcross(c: Cursor, seen: seq<Record>, snapshot: Store, first: Store, now: Store, i: nat)
    requires CursorOk(c) && WholeStore(now) && Progress(c, seen, snapshot, first, now) && Grown(first, now)
    requires |snapshot| == NextFrom(c) <= |now| && seen == AllRecords(snapshot, 0)
    requires i == NextNonEmpty(now, NextFrom(c)) < |now|
    ensures var d := AtRecord(i, now[i], 0);
            && CursorOk(d) && Current(d)
            && Progress(Choose(d, KeyAndValue), seen + [CurrentRecord(d)], snapshot + Passed(now, NextFrom(c)), first,
                        now)
  {
    hide Position, KeyLen, ValueLen, FirstRecord, Size, AllRecords, NextNonEmpty, RecordsOf, Whole;
    var passed := Passed(now, NextFrom(c));
    PassedRecords(now, NextFrom(c));
    AllRecordsConcat(snapshot, passed, 0);
    SnapshotGrows(snapshot, first, now);
    FirstOfSection(now[i], i);
    var d := AtRecord(i, now[i], 0);
    assert RecordEnd(Choose(d, KeyAndValue)) == RecordEnd(d);
    assert seen + ([CurrentRecord(d)] + RecordsOf(d.taken[RecordEnd(d)..]))
           == (seen + [CurrentRecord(d)]) + RecordsOf(d.taken[RecordEnd(d)..]);
  }

  lemma FirstOfSection(bytes: seq<byte>, i: nat)
    requires Whole(bytes) && bytes != []
    ensures var d := AtRecord(i, bytes, 0);
            && CursorOk(d) && Current(d) && Whole(bytes[RecordEnd(d)..])
            && RecordsOf(bytes) == [CurrentRecord(d)] + RecordsOf(bytes[RecordEnd(d)..])
  {
    hide Position, KeyLen, ValueLen, FirstRecord, Size;
    assert bytes[0..] == bytes;
    RestIsWhole(AtRecord(i, bytes, 0));
  }

  /** The sections passed now are as they are now. */
  lemma SnapshotGrows(snapshot: Store, first: Store, now: Store)
    requires |snapshot| <= |now| && Grown(first, now)
    requires forall i :: 0 <= i < |snapshot| ==> snapshot[i] <= now[i] && (i < |first| ==> first[i] <= snapshot[i])
    ensures var longer := snapshot + Passed(now, |snapshot|);
            && |longer| <= |now|
            && forall i :: 0 <= i < |longer| ==> longer[i] <= now[i] && (i < |first| ==> first[i] <= longer[i])
  {
    var longer := snapshot + Passed(now, |snapshot|);
    forall i | 0 <= i < |longer| ensures longer[i] <= now[i] && (i < |first| ==> first[i] <= longer[i]) {
      if i >= |snapshot| { assert longer[i] == now[i]; }
    }
  }

  /** There is no other section with data. */
  lemma ProgressEnds(c: Cursor, seen: seq<Record>, snapshot: Store, first: Store, now: Store)
    requires CursorOk(c) && WholeStore(now) && Progress(c, seen, snapshot, first, now) && Grown(first, now)
    requires |snapshot| == NextFrom(c) <= |now| && seen == AllRecords(snapshot, 0)
    requires NextNonEmpty(now, NextFrom(c)) >= |now|
    ensures var longer := snapshot + Passed(now, NextFrom(c));
            && Grown(first, longer) && Grown(longer, now) && |longer| == |now|
            && WholeStore(longer) && seen == AllRecords(longer, 0)
  {
    hide Position, KeyLen, ValueLen, FirstRecord, Size, AllRecords, NextNonEmpty;
    PassedRecords(now, NextFrom(c));
    AllRecordsConcat(snapshot, Passed(now, NextFrom(c)), 0);
  }

  ghost function NextSnapshot(c: Cursor, snapshot: Store, now: Store): Store
    requires CursorOk(c)
  {
    if (Current(c) && RecordEnd(c) < |c.taken|) || NextFrom(c) > |now| then snapshot
    else snapshot + Passed(now, NextFrom(c))
  }

  /** One call of `logdb_iter_next`, after which the caller reads key and value. */
  lemma ProgressStep(c: Cursor, seen: seq<Record>, snapshot: Store, first: Store, now: Store)
    requires CursorOk(c) && WholeStore(now) && Progress(c, seen, snapshot, first, now) && Grown(first, now)
    ensures var (d, more) := Step(c, now);
            var longer := NextSnapshot(c, snapshot, now);
            && CursorOk(d) && |longer| <= |now|
            && (more ==>
                  && Current(d)
                  && Progress(Choose(d, KeyAndValue), seen + [CurrentRecord(d)], longer, first, now)
                  && (|longer| > |snapshot|
                      || (longer == snapshot && c.leased && d.taken == c.taken && d.start > c.start)))
            && (!more ==>
                  && Grown(first, longer) && Grown(longer, now) && |longer| == |now|
                  && WholeStore(longer) && seen == AllRecords(longer, 0))
  {
    hide Position, KeyLen, ValueLen, FirstRecord, Size, AllRecords, NextNonEmpty, Step;
    if Current(c) && RecordEnd(c) < |c.taken| {
      ProgressWithin(c, seen, snapshot, first, now);
    } else {
      AllSeen(c, seen, snapshot, first, now);
      var i := NextNonEmpty(now, NextFrom(c));
      if i < |now| {
        ProgressAcross(c, seen, snapshot, first, now, i);
      } else {
        ProgressEnds(c, seen, snapshot, first, now);
      }
    }
  }

  /** The same, with the moments of the sections passed. */
  lemma SnapshotStep(c: Cursor, seen: seq<Record>, snapshot: Store, first: Store, now: Store, done: seq<Event>,
                     moments: seq<nat>)
    returns (longer: Store, later: seq<nat>)
    requires CursorOk(c) && WholeStore(now) && Progress(c, seen, snapshot, first, now) && Grown(first, now)
    requires now == After(first, done) && IsSnapshot(first, done, moments, snapshot)
    ensures IsSnapshot(first, done, later, longer)
    ensures var (d, more) := Step(c, now);
            && CursorOk(d) && |longer| <= |now|
            && (more ==>
                  && Current(d)
                  && Progress(Choose(d, KeyAndValue), seen + [CurrentRecord(d)], longer, first, now)
                  && (|longer| > |snapshot|
                      || (longer == snapshot && c.leased && d.taken == c.taken && d.start > c.start)))
            && (!more ==>
                  && Grown(first, longer) && Grown(longer, now) && |longer| == |now|
                  && WholeStore(longer) && seen == AllRecords(longer, 0))
  {
    hide Step, AllRecords, Progress, RecordEnd, Grown, WholeStore, CursorOk, After, IsSnapshot, NextSnapshot;
    longer := NextSnapshot(c, snapshot, now);
    ProgressStep(c, seen, snapshot, first, now);
    NextSnapshotIs(c, seen, snapshot, first, now);
    SnapshotNow(first, done, moments, snapshot, longer);
    later := moments + seq(|longer| - |snapshot|, _ => |done|);
  }

  lemma AppliedGrows(content: Store, e: Event)
    requires WholeStore(content) && (e.Commit? ==> Whole(e.data)) && !Fills(content, e)
    ensures Grown(content, Applied(content, e)) && WholeStore(Applied(content, e))
  {
    if Fits(content, e) && e.Commit? { WholeConcat(content[e.index], e.data); }
  }

  lemma GrownTransitive(a: Store, b: Store, c: Store)
    requires Grown(a, b) && Grown(b, c)
    ensures Grown(a, c)
  {
    forall i | 0 <= i < |a| ensures a[i] <= c[i] { assert a[i] <= b[i] && b[i] <= c[i]; }
  }

  lemma GrownBothWays(a: Store, b: Store)
    requires Grown(a, b) && Grown(b, a)
    ensures a == b
  {
    forall i | 0 <= i < |a| ensures a[i] == b[i] { assert a[i] <= b[i] && b[i] <= a[i]; }
  }

  /** An iterator is not disturbed by what other threads do. */
  method OtherThread(iter: Iterator, e: Event)
    requires iter.Valid() && WholeStore(iter.database.Content()) && (e.Commit? ==> Whole(e.data))
    requires !Fills(iter.database.Content(), e)
    modifies iter.database
    ensures iter.Valid() && iter.View() == old(iter.View()) && WholeStore(iter.database.Content())
    ensures iter.database.Content() == Applied(old(iter.database.Content()), e)
    ensures Grown(old(iter.database.Content()), iter.database.Content())
  {
    hide CursorOk, FieldsAgree, Position;
    AppliedGrows(iter.database.Content(), e);
    ChangeElsewhere(iter.database, e);
  }

  method OtherThreads(iter: Iterator, events: seq<Event>)
    requires iter.Valid() && WholeStore(iter.database.Content()) && WholeEvents(events)
    requires NoneFill(iter.database.Content(), events)
    modifies iter.database
    ensures iter.Valid() && iter.View() == old(iter.View()) && WholeStore(iter.database.Content())
    ensures iter.database.Content() == After(old(iter.database.Content()), events)
    ensures Grown(old(iter.database.Content()), iter.database.Content())
  {
    hide CursorOk, FieldsAgree, Position, WholeStore, Grown, Applied, Fills;
    ghost var first := iter.database.Content();
    GrownSelf(first);
    var k := 0;
    assert events[0..] == events;
    while k < |events|
      invariant k <= |events| && iter.Valid() && iter.View() == old(iter.View()) && WholeStore(iter.database.Content())
      invariant NoneFill(iter.database.Content(), events[k..])
      invariant After(iter.database.Content(), events[k..]) == After(first, events)
      invariant Grown(first, iter.database.Content())
    {
      ghost var before := iter.database.Content();
      assert events[k..][1..] == events[k + 1..];
      OtherThread(iter, events[k]);
      GrownTransitive(first, before, iter.database.Content());
      k := k + 1;
    }
  }

  /** Both parts of the current record, with other threads in between. */
  method ReadRecord(iter: Iterator, gap: Gap) returns (record: Record)
    requires iter.Valid() && Current(iter.View()) && WholeStore(iter.database.Content())
    requires WholeEvents(gap.beforeKey) && WholeEvents(gap.beforeValue)
    requires NoneFill(iter.database.Content(), gap.beforeKey + gap.beforeValue)
    modifies iter, iter.lease, iter.database
    ensures iter.Valid() && iter.View() == Choose(old(iter.View()), KeyAndValue)
    ensures record == CurrentRecord(old(iter.View())) && WholeStore(iter.database.Content())
    ensures Grown(old(iter.database.Content()), iter.database.Content())
    ensures iter.database.Content() == After(old(iter.database.Content()), gap.beforeKey + gap.beforeValue)
  {
    hide CursorOk, FieldsAgree, LeaseAgrees, Position, Grown, WholeStore, NoneFill, After;
    ghost var first := iter.database.Content();
    AfterBoth(first, gap.beforeKey, gap.beforeValue);
    OtherThreads(iter, gap.beforeKey);
    var key := iter.CurrentKey();
    ghost var middle := iter.database.Content();
    OtherThreads(iter, gap.beforeValue);
    GrownTransitive(first, middle, iter.database.Content());
    var value := iter.CurrentValue();
    record := Record(key.value, value.value);
  }

  function GapAt(gaps: seq<Gap>, k: nat): Gap {
    if k < |gaps| then gaps[k] else Gap([], [], [])
  }

  function EventsFrom(gaps: seq<Gap>, k: nat): seq<Event> {
    if k < |gaps| then AllEvents(gaps[k..]) else []
  }

  function NextGap(gaps: seq<Gap>, k: nat): nat {
    if k < |gaps| then k + 1 else k
  }

  lemma EventsSplit(gaps: seq<Gap>, k: nat)
    requires WholeGaps(gaps)
    ensures var gap := GapAt(gaps, k);
            && EventsFrom(gaps, k)
               == gap.beforeNext + (gap.beforeKey + gap.beforeValue) + EventsFrom(gaps, NextGap(gaps, k))
            && WholeEvents(gap.beforeNext) && WholeEvents(gap.beforeKey) && WholeEvents(gap.beforeValue)
            && (k >= |gaps| ==> gap == Gap([], [], []))
            && forall content :: After(content, []) == content
  {
    if k < |gaps| {
      assert gaps[k..][1..] == gaps[k + 1..];
      assert k + 1 == |gaps| ==> AllEvents(gaps[k + 1..]) == [];
    }
  }

  /** The events of one gap, before the call of `logdb_iter_next` and after it. */
  lemma GapEvents(first: Store, done: seq<Event>, gaps: seq<Gap>, k: nat)
    requires NoneFill(After(first, done), EventsFrom(gaps, k)) && WholeGaps(gaps)
    ensures var (gap, content) := (GapAt(gaps, k), After(first, done));
            var reading := gap.beforeKey + gap.beforeValue;
            && WholeEvents(gap.beforeNext) && WholeEvents(gap.beforeKey) && WholeEvents(gap.beforeValue)
            && (k >= |gaps| ==> gap == Gap([], [], []) && After(content, gap.beforeNext + reading) == content)
            && NoneFill(content, gap.beforeNext)
            && After(first, done + gap.beforeNext) == After(content, gap.beforeNext)
            && NoneFill(After(first, done + gap.beforeNext), reading)
            && After(first, done + gap.beforeNext + reading) == After(After(first, done + gap.beforeNext), reading)
            && NoneFill(After(first, done + gap.beforeNext + reading), EventsFrom(gaps, NextGap(gaps, k)))
            && done + gap.beforeNext + reading + EventsFrom(gaps, NextGap(gaps, k)) == done + EventsFrom(gaps, k)
  {
    hide EventsFrom, GapAt, After, NoneFill, WholeEvents, WholeGaps;
    var (gap, content) := (GapAt(gaps, k), After(first, done));
    var reading := gap.beforeKey + gap.beforeValue;
    EventsSplit(gaps, k);
    AfterBoth(content, gap.beforeNext + reading, EventsFrom(gaps, NextGap(gaps, k)));
    AfterBoth(content, gap.beforeNext, reading);
    AfterBoth(first, done, gap.beforeNext);
    AfterBoth(first, done + gap.beforeNext, reading);
  }

  /** One call of `logdb_iter_next`, and both parts of the record it finds. */
  method ReadNext(iter: Iterator, gap: Gap) returns (record: Option<Record>, ghost now: Store)
    requires iter.Valid() && WholeStore(iter.database.Content())
    requires WholeEvents(gap.beforeNext) && WholeEvents(gap.beforeKey) && WholeEvents(gap.beforeValue)
    requires NoneFill(iter.database.Content(), gap.beforeNext)
    requires NoneFill(After(iter.database.Content(), gap.beforeNext), gap.beforeKey + gap.beforeValue)
    modifies iter, iter.lease, iter.database
    ensures iter.Valid() && iter.database.Valid() && now == After(old(iter.database.Content()), gap.beforeNext)
    ensures WholeStore(now) && Grown(old(iter.database.Content()), now)
    ensures CursorOk(old(iter.View())) && CursorOk(Step(old(iter.View()), now).0)
    ensures WholeStore(iter.database.Content()) && Grown(now, iter.database.Content())
    ensures var (d, more) := Step(old(iter.View()), now);
            && (record.Some? <==> more)
            && (!more ==> iter.database.Content() == now)
            && (more ==>
                  && Current(d) && iter.View() == Choose(d, KeyAndValue) && record.value == CurrentRecord(d)
                  && iter.database.Content() == After(now, gap.beforeKey + gap.beforeValue))
  {
    hide Step, LeaseAgrees, FieldsAgree, RecordEnd, Grown, WholeStore, After, NoneFill, WholeEvents, InDb, Sections,
         SmallLens, Position, FirstRecord;
    OtherThreads(iter, gap.beforeNext);
    now := iter.database.Content();
    GrownSelf(now);
    StepOk(iter.View(), now);
    var more := iter.Next();
    if !more { return None, now; }
    var found := ReadRecord(iter, gap);
    record := Some(found);
  }

  /** Reads every record while other threads do what they like, short of filling a
      section. What it returns are exactly the records of a snapshot: each section
      as it was after so many of their steps, so whole transactions only, and all
      sections that there were at the end. */
  method ReadAll(iter: Iterator, gaps: seq<Gap>)
    returns (records: seq<Record>, ghost snapshot: Store, ghost moments: seq<nat>, ghost end: nat)
    requires iter.Valid() && !iter.View().leased && WholeStore(iter.database.Content())
    requires WholeGaps(gaps) && NoneFill(iter.database.Content(), AllEvents(gaps))
    modifies iter, iter.lease, iter.database
    ensures iter.database.Valid()
    ensures end <= |AllEvents(gaps)|
    ensures iter.database.Content() == After(old(iter.database.Content()), AllEvents(gaps)[..end])
    ensures IsSnapshot(old(iter.database.Content()), AllEvents(gaps)[..end], moments, snapshot)
    ensures |snapshot| == |iter.database.Content()|
    ensures WholeStore(snapshot) && records == AllRecords(snapshot, 0)
    ensures gaps == [] ==> snapshot == old(iter.database.Content()) == iter.database.Content()
  {
    hide Step, AllRecords, Progress, RecordEnd, Grown, WholeStore, CursorOk, After, NoneFill, IsSnapshot, WholeEvents,
         WholeGaps, EventsFrom, GapAt, InDb, Sections, SmallLens, LeaseAgrees, FieldsAgree;
    var db := iter.database;
    var k := 0;
    ghost var first := db.Content();
    ghost var done: seq<Event> := [];
    records, snapshot, moments := [], [], [];
    Beginning(first, gaps);
    NothingSeen(iter.View(), first);
    while true
      invariant k <= |gaps|
      invariant iter.Valid() && WholeStore(db.Content()) && Grown(first, db.Content())
      invariant done + EventsFrom(gaps, k) == AllEvents(gaps) && NoneFill(db.Content(), EventsFrom(gaps, k))
      invariant db.Content() == After(first, done) && IsSnapshot(first, done, moments, snapshot)
      invariant Progress(iter.View(), records, snapshot, first, db.Content()) && |snapshot| <= |db.Content()|
      decreases |gaps| - k, |db.Content()| - |snapshot|, |iter.taken| - iter.start
    {
      ghost var c, before := iter.View(), db.Content();
      var gap := GapAt(gaps, k);
      GapEvents(first, done, gaps, k);
      var record;
      ghost var now;
      record, now := ReadNext(iter, gap);
      ProgressGrows(c, records, snapshot, first, before, now);
      GrownTransitive(first, before, now);
      SnapshotLater(first, done, gap.beforeNext, moments, snapshot);
      done := done + gap.beforeNext;
      snapshot, moments := SnapshotStep(c, records, snapshot, first, now, done, moments);
      if record.None? {
        end := |done|;
        Ending(first, done, gaps, snapshot, now);
        return;
      }
      records := records + [record.value];
      SnapshotLater(first, done, gap.beforeKey + gap.beforeValue, moments, snapshot);
      done := done + (gap.beforeKey + gap.beforeValue);
      ProgressGrows(iter.View(), records, snapshot, first, now, db.Content());
      GrownTransitive(first, now, db.Content());
      k := NextGap(gaps, k);
    }
  }

  lemma Beginning(first: Store, gaps: seq<Gap>)
    ensures EventsFrom(gaps, 0) == AllEvents(gaps) == [] + AllEvents(gaps)
    ensures After(first, []) == first && IsSnapshot(first, [], [], [])
  {
    if gaps != [] { assert gaps[0..] == gaps; }
  }

  lemma Ending(first: Store, done: seq<Event>, gaps: seq<Gap>, snapshot: Store, now: Store)
    requires done <= AllEvents(gaps) && now == After(first, done) && Grown(first, snapshot) && Grown(snapshot, now)
    ensures AllEvents(gaps)[..|done|] == done
    ensures gaps == [] ==> snapshot == first == now
  {
    if gaps == [] { GrownBothWays(first, snapshot); }
  }

  lemma NextSnapshotIs(c: Cursor, seen: seq<Record>, snapshot: Store, first: Store, now: Store)
    requires CursorOk(c) && Progress(c, seen, snapshot, first, now)
    ensures var longer := NextSnapshot(c, snapshot, now);
            snapshot <= longer && forall i :: |snapshot| <= i < |longer| && i < |now| ==> longer[i] == now[i]
  {
  }

  lemma NothingSeen(c: Cursor, first: Store)
    requires CursorOk(c) && !c.leased
    ensures Progress(c, [], [], first, first) && Grown(first, first)
  {
  }

  lemma GrownSelf(content: Store)
    ensures Grown(content, content)
  {
  }
}
