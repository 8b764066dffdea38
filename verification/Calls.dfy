// Calls of one thread, each with the disk it meets, as a function on values:
// what is committed, where it goes, and what of it a reader finds.
module Calls {
  import opened Bytes
  import opened Layout
  import opened FileFormat
  import opened Leases
  import opened Records
  import opened Sessions
  import Scripts
  import Cursor
  import IterationRuns

  datatype Call = Do(op: Scripts.Op, disk: Disk) | AddSection

  /** The transactions, the section of each commit, and the committed bytes. */
  datatype World = World(txns: Scripts.Txns, places: seq<nat>, content: Store)

  /** A put that leaves the caller's buffers alone; see `Session.Put`. */
  predicate Sound(c: Call) {
    c.Do? && c.op.Put? ==> Storable(c.op.record) && RECORD_HEADER_SIZE + |c.op.record.key| < U32_LIMIT
  }

  predicate AllSound(calls: seq<Call>) {
    forall k :: 0 <= k < |calls| ==> Sound(calls[k])
  }

  predicate Granted(content: Store, disk: Disk, size: nat) {
    disk.section < |content| && |content[disk.section]| + size <= SECTION_SIZE && size <= disk.room && disk.syncs
  }

  /** The innermost transaction of `s` commits. */
  function Committed(w: World, s: Scripts.Txns, disk: Disk): World
    requires s.frames != []
  {
    if !Publishes(s) then w.(txns := if Fits(s) then Scripts.CommitTop(s) else Lost(s))
    else if !Granted(w.content, disk, |Scripts.Top(s)|) then w
    else World(Scripts.CommitTop(s), w.places + [disk.section], Placed(w.content, disk.section, Scripts.Top(s)))
  }

  /** The commit of the innermost transaction of `s` fills its section. */
  predicate FillsBy(w: World, s: Scripts.Txns, disk: Disk)
    requires s.frames != []
  {
    && Publishes(s) && Granted(w.content, disk, |Scripts.Top(s)|)
    && FillsSection(w.content, disk.section, |Scripts.Top(s)|)
  }

  function Called(w: World, c: Call): World
    requires Sound(c)
  {
    match c
    case AddSection => if |w.content| + 1 < MAX_SECTIONS then w.(content := w.content + [[]]) else w
    case Do(op, disk) =>
      match op
      case Put(r) => Committed(w, Pushed(w.txns, Built(r)), disk)
      case Commit => if w.txns.frames == [] then w else Committed(w, w.txns, disk)
      case _ => w.(txns := Scripts.Step(w.txns, op))
  }

  function RunCalls(w: World, calls: seq<Call>): World
    requires AllSound(calls)
    decreases |calls|
  {
    if calls == [] then w else RunCalls(Called(w, calls[0]), calls[1..])
  }

  // ------------------------------------------------------------------ places

  /** The transactions that went to section `i`, in the order of their commits. */
  function Share(published: seq<seq<byte>>, places: seq<nat>, i: nat): seq<byte>
    requires |places| == |published|
  {
    if published == [] then []
    else
      var n := |published| - 1;
      Share(published[..n], places[..n], i) + if places[n] == i then published[n] else []
  }

  function At(base: Store, i: nat): seq<byte> {
    if i < |base| then base[i] else []
  }

  /** Each commit went to a section that exists. */
  predicate Tracked(base: Store, w: World) {
    && |w.places| == |w.txns.published| && |base| <= |w.content|
    && (forall k :: 0 <= k < |w.places| ==> w.places[k] < |w.content|)
  }

  /** Every section holds what it held at first and then what was committed to it. */
  ghost predicate Laid(base: Store, w: World) {
    Tracked(base, w) && forall i :: 0 <= i < |w.content| ==> HasShare(base, w, i)
  }

  predicate HasShare(base: Store, w: World, i: nat)
    requires |w.places| == |w.txns.published| && i < |w.content|
  {
    w.content[i] == At(base, i) + Share(w.txns.published, w.places, i)
  }

  /** Some section holds less. */
  ghost predicate Short(base: Store, w: World) {
    Tracked(base, w) && exists i :: 0 <= i < |w.content| && HasLess(base, w, i)
  }

  predicate HasLess(base: Store, w: World, i: nat)
    requires |w.places| == |w.txns.published| && i < |w.content|
  {
    |w.content[i]| < |At(base, i)| + |Share(w.txns.published, w.places, i)|
  }

  lemma {:induction false} NothingElsewhere(published: seq<seq<byte>>, places: seq<nat>, i: nat)
    requires |places| == |published| && i !in places
    ensures Share(published, places, i) == []
  {
    if published != [] { NothingElsewhere(published[..|published| - 1], places[..|published| - 1], i); }
  }

  /** What one more commit adds to the shares. */
  lemma ShareGrows(w: World, s: Scripts.Txns, disk: Disk)
    requires |w.places| == |w.txns.published| && s.frames != [] && s.published == w.txns.published
    requires Publishes(s) && Granted(w.content, disk, |Scripts.Top(s)|)
    ensures var w' := Committed(w, s, disk);
            && |w'.places| == |w'.txns.published|
            && forall i: nat :: Share(w'.txns.published, w'.places, i)
                 == Share(w.txns.published, w.places, i) + if i == disk.section then Scripts.Top(s) else []
  {
    var w', n := Committed(w, s, disk), |w.places|;
    assert w'.txns.published[..n] == w.txns.published && w'.places[..n] == w.places;
  }

  /** A commit keeps the shares apart from the one way to lose one. */
  lemma CommittedLaid(base: Store, w: World, s: Scripts.Txns, disk: Disk)
    requires Tracked(base, w) && s.frames != [] && s.published == w.txns.published
    ensures Laid(base, w) && !FillsBy(w, s, disk) ==> Laid(base, Committed(w, s, disk))
    ensures Short(base, w) || (Laid(base, w) && FillsBy(w, s, disk)) ==> Short(base, Committed(w, s, disk))
    ensures Tracked(base, Committed(w, s, disk))
  {
    hide Laid, Short;
    if Publishes(s) && Granted(w.content, disk, |Scripts.Top(s)|) {
      ShareGrows(w, s, disk);
      PlacedLaid(base, w, s, disk);
    } else {
      SameShares(base, w, Committed(w, s, disk));
    }
  }

  lemma SameShares(base: Store, w: World, w': World)
    requires Tracked(base, w) && w'.content == w.content && w'.places == w.places
    requires w'.txns.published == w.txns.published
    ensures Tracked(base, w') && (Laid(base, w) ==> Laid(base, w')) && (Short(base, w) ==> Short(base, w'))
  {
    if Laid(base, w) {
      forall i | 0 <= i < |w'.content| ensures HasShare(base, w', i) { assert HasShare(base, w, i); }
    }
    if Short(base, w) {
      var i :| 0 <= i < |w.content| && HasLess(base, w, i);
      assert HasLess(base, w', i);
    }
  }

  lemma PlacedLaid(base: Store, w: World, s: Scripts.Txns, disk: Disk)
    requires Tracked(base, w) && s.frames != [] && s.published == w.txns.published
    requires Publishes(s) && Granted(w.content, disk, |Scripts.Top(s)|)
    ensures Laid(base, w) && !FillsBy(w, s, disk) ==> Laid(base, Committed(w, s, disk))
    ensures Short(base, w) || (Laid(base, w) && FillsBy(w, s, disk)) ==> Short(base, Committed(w, s, disk))
    ensures Tracked(base, Committed(w, s, disk))
  {
    var w' := Committed(w, s, disk);
    ShareGrows(w, s, disk);
    if Laid(base, w) && !FillsBy(w, s, disk) {
      forall i | 0 <= i < |w'.content| ensures HasShare(base, w', i) { assert HasShare(base, w, i); }
    }
    if Short(base, w) {
      var i :| 0 <= i < |w.content| && HasLess(base, w, i);
      assert HasLess(base, w', i);
    } else if Laid(base, w) && FillsBy(w, s, disk) {
      assert HasLess(base, w', disk.section);
    }
  }

  lemma AddedLaid(base: Store, w: World)
    requires Tracked(base, w)
    ensures var w' := w.(content := w.content + [[]]);
            Tracked(base, w') && (Laid(base, w) ==> Laid(base, w')) && (Short(base, w) ==> Short(base, w'))
  {
    var w', n := w.(content := w.content + [[]]), |w.content|;
    if Laid(base, w) {
      forall i | 0 <= i < |w'.content| ensures HasShare(base, w', i) {
        if i < n { assert HasShare(base, w, i); } else { NothingElsewhere(w.txns.published, w.places, i); }
      }
    }
    if Short(base, w) {
      var i :| 0 <= i < |w.content| && HasLess(base, w, i);
      assert HasLess(base, w', i);
    }
  }

  /** A call keeps every share if and only if it fills no section, and what is lost
      stays lost. */
  lemma CalledLaid(base: Store, w: World, c: Call)
    requires Tracked(base, w) && Sound(c)
    ensures Laid(base, w) && !Fills(w, c) ==> Laid(base, Called(w, c))
    ensures Short(base, w) || (Laid(base, w) && Fills(w, c)) ==> Short(base, Called(w, c))
    ensures Tracked(base, Called(w, c))
  {
    hide Laid, Short, Built;
    match c
    case AddSection => AddedLaid(base, w);
    case Do(op, disk) =>
      match op
      case Put(r) => CommittedLaid(base, w, Pushed(w.txns, Built(r)), disk);
      case Commit => if w.txns.frames != [] { CommittedLaid(base, w, w.txns, disk); }
      case _ => SameShares(base, w, Called(w, c));
  }

  lemma ShortIsNotLaid(base: Store, w: World)
    requires Short(base, w)
    ensures !Laid(base, w)
  {
    var i :| 0 <= i < |w.content| && HasLess(base, w, i);
    assert !HasShare(base, w, i);
  }

  lemma {:induction false} RunShort(base: Store, w: World, calls: seq<Call>)
    requires Short(base, w) && AllSound(calls)
    ensures Short(base, RunCalls(w, calls))
    decreases |calls|
  {
    hide Called, Short;
    if calls != [] {
      ShortIsTracked(base, w);
      CalledLaid(base, w, calls[0]);
      RunShort(base, Called(w, calls[0]), calls[1..]);
    }
  }

  lemma ShortIsTracked(base: Store, w: World)
    requires Short(base, w) || Laid(base, w)
    ensures Tracked(base, w)
  {
  }

  /** In any run, whatever fails in between, each section is the concatenation of
      the transactions that its leases were granted to, if and only if no commit
      filled its section to the last byte. */
  lemma {:induction false} RunLaid(base: Store, w: World, calls: seq<Call>)
    requires Laid(base, w) && AllSound(calls)
    ensures Laid(base, RunCalls(w, calls)) <==> NoneFills(w, calls)
    decreases |calls|
  {
    hide Called, Laid, Short, Fills;
    if calls != [] {
      ShortIsTracked(base, w);
      CalledLaid(base, w, calls[0]);
      if Fills(w, calls[0]) {
        RunShort(base, Called(w, calls[0]), calls[1..]);
        ShortIsNotLaid(base, RunCalls(w, calls));
      } else {
        RunLaid(base, Called(w, calls[0]), calls[1..]);
      }
    }
  }

  // ------------------------------------------------------------- transactions

  /** The state whose innermost transaction call `c` commits. */
  function Committing(w: World, c: Call): Scripts.Txns {
    if c.Do? && c.op.Put? then Pushed(w.txns, Built(c.op.record)) else w.txns
  }

  predicate Commits(w: World, c: Call) {
    c.Do? && (c.op.Put? || (c.op.Commit? && w.txns.frames != []))
  }

  /** The call fails: there is no lease, or the disk is full or broken. */
  predicate Refused(w: World, c: Call) {
    Commits(w, c) && Publishes(Committing(w, c)) && !Granted(w.content, c.disk, |Scripts.Top(Committing(w, c))|)
  }

  /** The commit succeeds and fills its section to the last byte. */
  predicate Fills(w: World, c: Call) {
    Commits(w, c) && FillsBy(w, Committing(w, c), c.disk)
  }

  predicate NoneFills(w: World, calls: seq<Call>)
    requires AllSound(calls)
    decreases |calls|
  {
    calls == [] || (!Fills(w, calls[0]) && NoneFills(Called(w, calls[0]), calls[1..]))
  }

  /** The outer transaction would pass 32 bits: it loses what it had. */
  predicate Overflows(w: World, c: Call) {
    Commits(w, c) && !Fits(Committing(w, c))
  }

  predicate NoOverflow(w: World, calls: seq<Call>)
    requires AllSound(calls)
    decreases |calls|
  {
    calls == [] || (!Overflows(w, calls[0]) && NoOverflow(Called(w, calls[0]), calls[1..]))
  }

  /** The call takes effect: it is not refused, and no record that is too long. */
  predicate Effective(w: World, c: Call) {
    c.Do? && !Refused(w, c) && (c.op.Put? ==> Encodable(c.op.record))
  }

  function Succeeding(w: World, calls: seq<Call>): (ops: seq<Scripts.Op>)
    requires AllSound(calls)
    ensures Scripts.AllStorable(ops)
    decreases |calls|
  {
    if calls == [] then []
    else (if Effective(w, calls[0]) then [calls[0].op] else []) + Succeeding(Called(w, calls[0]), calls[1..])
  }

  /** A call does to the transactions what its script operation does, or nothing,
      exactly if no outer transaction overflows. */
  lemma CalledTxns(w: World, c: Call)
    requires Sound(c)
    ensures Called(w, c).txns == (if Effective(w, c) then Scripts.Step(w.txns, c.op) else w.txns) <==> !Overflows(w, c)
  {
    if c.Do? && c.op.Put? {
      var s := Pushed(w.txns, Built(c.op.record));
      PushedView(w.txns, Built(c.op.record));
      assert Committing(w, c) == s;
      if !Encodable(c.op.record) { assert Scripts.CommitTop(s) == w.txns; }
    }
    if Overflows(w, c) { LossShows(Committing(w, c)); }
  }

  lemma LossShows(s: Scripts.Txns)
    requires s.frames != [] && !Fits(s)
    ensures Lost(s) != Scripts.CommitTop(s)
  {
    var n := |s.frames| - 2;
    assert Lost(s).frames[n] == [] && Scripts.CommitTop(s).frames[n] == s.frames[n] + Scripts.Top(s);
  }

  /** A run does what the calls that succeed do when every write succeeds. */
  lemma {:induction false} RunIsScript(w: World, calls: seq<Call>)
    requires AllSound(calls) && NoOverflow(w, calls)
    ensures RunCalls(w, calls).txns == Scripts.Run(w.txns, Succeeding(w, calls))
    decreases |calls|
  {
    if calls != [] {
      CalledTxns(w, calls[0]);
      RunIsScript(Called(w, calls[0]), calls[1..]);
      var ops, rest := Succeeding(w, calls), Succeeding(Called(w, calls[0]), calls[1..]);
      if Effective(w, calls[0]) {
        assert ops == [calls[0].op] + rest;
        assert ops[0] == calls[0].op && ops[1..] == rest;
      } else {
        assert ops == rest;
      }
    }
  }

  // ----------------------------------------------------------------- records

  /** Only whole records are committed. */
  ghost predicate Decodable(base: Store, w: World) {
    && Scripts.WholeTxns(w.txns) && Cursor.WholeStore(base) && Cursor.WholeStore(w.content)
    && Whole(Flatten(w.txns.published))
  }

  /** A reader finds all of them, and those that were there. */
  ghost predicate Readable(base: Store, w: World) {
    && Decodable(base, w)
    && multiset(Cursor.AllRecords(w.content, 0))
       == multiset(Cursor.AllRecords(base, 0)) + multiset(RecordsOf(Flatten(w.txns.published)))
  }

  /** Some of them are not there. */
  ghost predicate Fewer(base: Store, w: World) {
    && Decodable(base, w)
    && |Cursor.AllRecords(w.content, 0)| < |Cursor.AllRecords(base, 0)| + |RecordsOf(Flatten(w.txns.published))|
  }

  /** Records added to one section are added to what a reader finds. */
  lemma {:induction false} SectionGrows(content: Store, content': Store, p: nat, added: seq<Record>, from: nat)
    requires Cursor.WholeStore(content) && Cursor.WholeStore(content') && p < |content| == |content'|
    requires forall i :: 0 <= i < |content| && i != p ==> content'[i] == content[i]
    requires RecordsOf(content'[p]) == RecordsOf(content[p]) + added
    ensures multiset(Cursor.AllRecords(content', from))
            == multiset(Cursor.AllRecords(content, from)) + if from <= p then multiset(added) else multiset{}
    decreases |content| - from
  {
    hide Whole, RecordsOf;
    if from < |content| {
      SectionGrows(content, content', p, added, from + 1);
      assert Cursor.AllRecords(content', from) == RecordsOf(content'[from]) + Cursor.AllRecords(content', from + 1);
      assert Cursor.AllRecords(content, from) == RecordsOf(content[from]) + Cursor.AllRecords(content, from + 1);
    }
  }

  /** A commit adds its records, unless it fills the section: then those of the
      section are gone. */
  lemma PlacedRecords(content: Store, p: nat, bytes: seq<byte>)
    requires Cursor.WholeStore(content) && Whole(bytes) && p < |content| && |content[p]| + |bytes| <= SECTION_SIZE
    ensures Cursor.WholeStore(Placed(content, p, bytes))
    ensures multiset(Cursor.AllRecords(Placed(content, p, bytes), 0))
            == if FillsSection(content, p, |bytes|)
               then multiset(Cursor.AllRecords(content, 0)) - multiset(RecordsOf(content[p]))
               else multiset(Cursor.AllRecords(content, 0)) + multiset(RecordsOf(bytes))
  {
    hide Whole, RecordsOf, Placed, Cursor.AllRecords;
    PlacedWhole(content, p, bytes);
    var content' := Placed(content, p, bytes);
    if FillsSection(content, p, |bytes|) {
      SectionGrows(content', content, p, RecordsOf(content[p]), 0);
    } else {
      SectionGrows(content, content', p, RecordsOf(bytes), 0);
    }
  }

  lemma PlacedWhole(content: Store, p: nat, bytes: seq<byte>)
    requires Cursor.WholeStore(content) && Whole(bytes) && p < |content| && |content[p]| + |bytes| <= SECTION_SIZE
    ensures var content' := Placed(content, p, bytes);
            && Cursor.WholeStore(content') && |content'| == |content|
            && (forall i :: 0 <= i < |content| && i != p ==> content'[i] == content[i])
            && if FillsSection(content, p, |bytes|)
               then RecordsOf(content[p]) == RecordsOf(content'[p]) + RecordsOf(content[p])
               else RecordsOf(content'[p]) == RecordsOf(content[p]) + RecordsOf(bytes)
  {
    WholeConcat(content[p], bytes);
  }

  /** A commit of `bytes` to section `p`, in terms of what is to be found. */
  lemma PublishedRecords(base: Store, w: World, w': World, p: nat, bytes: seq<byte>)
    requires Decodable(base, w) && Scripts.WholeTxns(w'.txns) && Whole(bytes) && bytes != []
    requires p < |w.content| && |w.content[p]| + |bytes| <= SECTION_SIZE && w'.content == Placed(w.content, p, bytes)
    requires w'.txns.published == w.txns.published + [bytes]
    ensures Decodable(base, w')
    ensures Readable(base, w) && !FillsSection(w.content, p, |bytes|) ==> Readable(base, w')
    ensures Fewer(base, w) || (Readable(base, w) && FillsSection(w.content, p, |bytes|)) ==> Fewer(base, w')
  {
    hide Whole, RecordsOf, Cursor.AllRecords, Flatten, Placed;
    var published := w.txns.published;
    PlacedRecords(w.content, p, bytes);
    FlattenAppend(published, bytes);
    WholeConcat(Flatten(published), bytes);
    SomeRecord(bytes);
    var found, found' := Cursor.AllRecords(w.content, 0), Cursor.AllRecords(w'.content, 0);
    assert |multiset(found')| == |found'| && |multiset(found)| == |found|;
    assert |found'| <= |found| + if FillsSection(w.content, p, |bytes|) then 0 else |RecordsOf(bytes)|;
    if Readable(base, w) {
      assert |multiset(found)| == |Cursor.AllRecords(base, 0)| + |RecordsOf(Flatten(published))|;
    }
  }

  lemma SomeRecord(bytes: seq<byte>)
    requires Whole(bytes) && bytes != []
    ensures |RecordsOf(bytes)| > 0
  {
  }

  lemma CommittedReadable(base: Store, w: World, s: Scripts.Txns, disk: Disk)
    requires Decodable(base, w) && Scripts.WholeTxns(s) && s.frames != [] && s.published == w.txns.published
    ensures Decodable(base, Committed(w, s, disk))
    ensures Readable(base, w) && !FillsBy(w, s, disk) ==> Readable(base, Committed(w, s, disk))
    ensures Fewer(base, w) || (Readable(base, w) && FillsBy(w, s, disk)) ==> Fewer(base, Committed(w, s, disk))
  {
    hide Whole, RecordsOf, Cursor.AllRecords, Flatten, Placed;
    Scripts.WholeCommit(s);
    if Publishes(s) && Granted(w.content, disk, |Scripts.Top(s)|) {
      hide Readable, Fewer;
      PublishedRecords(base, w, Committed(w, s, disk), disk.section, Scripts.Top(s));
    } else if !Publishes(s) && !Fits(s) {
      NothingIsWhole();
      assert Scripts.WholeTxns(Lost(s));
    }
  }

  lemma NothingIsWhole()
    ensures Whole([])
  {
  }

  lemma BuiltIsWhole(r: Record)
    requires Storable(r) && RECORD_HEADER_SIZE + |r.key| < U32_LIMIT
    ensures Whole(Built(r))
  {
    if Encodable(r) {
      EncodeStarts(r, []);
      assert Encode(r) + [] == Encode(r);
    }
  }

  lemma MoreSections(content: Store)
    requires Cursor.WholeStore(content)
    ensures Cursor.WholeStore(content + [[]]) && Cursor.AllRecords(content + [[]], 0) == Cursor.AllRecords(content, 0)
  {
    assert Cursor.WholeStore([[]]);
    IterationRuns.AllRecordsConcat(content, [[]], 0);
    assert Cursor.AllRecords([[]], 1) == [];
  }

  lemma AddedReadable(base: Store, w: World)
    requires Decodable(base, w)
    ensures var w' := w.(content := w.content + [[]]);
            && Decodable(base, w') && (Readable(base, w) ==> Readable(base, w'))
            && (Fewer(base, w) ==> Fewer(base, w'))
  {
    hide Whole, RecordsOf, Cursor.AllRecords;
    MoreSections(w.content);
  }

  lemma CalledReadable(base: Store, w: World, c: Call)
    requires Decodable(base, w) && Sound(c)
    ensures Decodable(base, Called(w, c))
    ensures Readable(base, w) && !Fills(w, c) ==> Readable(base, Called(w, c))
    ensures Fewer(base, w) || (Readable(base, w) && Fills(w, c)) ==> Fewer(base, Called(w, c))
  {
    hide Committed, Built, Whole, RecordsOf, Cursor.AllRecords, Scripts.CommitTop, FillsBy;
    match c
    case AddSection => AddedReadable(base, w);
    case Do(op, disk) =>
      match op
      case Put(r) =>
        BuiltIsWhole(r);
        CommittedReadable(base, w, Pushed(w.txns, Built(r)), disk);
      case Commit => if w.txns.frames != [] { CommittedReadable(base, w, w.txns, disk); }
      case _ => Scripts.WholeStep(w.txns, op);
  }

  lemma {:induction false} RunFewer(base: Store, w: World, calls: seq<Call>)
    requires Fewer(base, w) && AllSound(calls)
    ensures Fewer(base, RunCalls(w, calls))
    decreases |calls|
  {
    hide Called, Fewer, Readable;
    if calls != [] {
      FewerFacts(base, w);
      CalledReadable(base, w, calls[0]);
      RunFewer(base, Called(w, calls[0]), calls[1..]);
    }
  }

  lemma FewerFacts(base: Store, w: World)
    ensures Fewer(base, w) || Readable(base, w) ==> Decodable(base, w)
    ensures Fewer(base, w) ==> !Readable(base, w)
  {
    hide Whole, RecordsOf, Cursor.AllRecords, Flatten;
    if Readable(base, w) {
      var found := multiset(Cursor.AllRecords(w.content, 0));
      assert |found| == |Cursor.AllRecords(base, 0)| + |RecordsOf(Flatten(w.txns.published))|;
    }
  }

  /** In any run only whole records are committed, and the records that a reader
      finds are those that were there before and those that were published, if and
      only if no commit filled its section. */
  lemma {:induction false} RunReadable(base: Store, w: World, calls: seq<Call>)
    requires Readable(base, w) && AllSound(calls)
    ensures Decodable(base, RunCalls(w, calls))
    ensures Readable(base, RunCalls(w, calls)) <==> NoneFills(w, calls)
    decreases |calls|
  {
    hide Called, Fewer, Readable, Decodable, Fills;
    FewerFacts(base, w);
    if calls != [] {
      CalledReadable(base, w, calls[0]);
      if Fills(w, calls[0]) {
        RunFewer(base, Called(w, calls[0]), calls[1..]);
        FewerFacts(base, RunCalls(w, calls));
      } else {
        RunReadable(base, Called(w, calls[0]), calls[1..]);
      }
    }
  }

  function Start(base: Store): World {
    World(Scripts.Txns([], []), [], base)
  }

  lemma StartReadable(base: Store)
    requires Cursor.WholeStore(base)
    ensures Readable(base, Start(base)) && Laid(base, Start(base))
  {
  }

  /** Put and iterate: the records that were there, and those of exactly the puts
      that succeed and whose enclosing transactions all commit. */
  lemma ReadBack(base: Store, calls: seq<Call>)
    requires Cursor.WholeStore(base) && AllSound(calls)
    requires NoOverflow(Start(base), calls) && NoneFills(Start(base), calls)
    ensures Cursor.WholeStore(RunCalls(Start(base), calls).content)
    ensures multiset(Cursor.AllRecords(RunCalls(Start(base), calls).content, 0))
            == multiset(Cursor.AllRecords(base, 0)) + multiset(Scripts.Surviving(Succeeding(Start(base), calls), 0))
  {
    StartReadable(base);
    RunReadable(base, Start(base), calls);
    RunIsScript(Start(base), calls);
    Scripts.PublishedAreSurvivors(Succeeding(Start(base), calls));
  }

  // ------------------------------------------------------- what is published

  /** The call commits a transaction to a section of the database. */
  predicate Writes(w: World, c: Call) {
    Commits(w, c) && Publishes(Committing(w, c))
  }

  /** The transaction that the call commits. */
  function TxnOf(w: World, c: Call): seq<byte> {
    if Writes(w, c) then Scripts.Top(Committing(w, c)) else []
  }

  /** A commit writes to the section it gets if and only if there is such a section
      with room for it, the disk takes all of it, and the sync succeeds; then the
      transaction and its place are recorded, and otherwise nothing is. */
  lemma CalledPublishes(w: World, c: Call)
    requires Sound(c) && Writes(w, c)
    ensures var w', txn := Called(w, c), TxnOf(w, c);
            if c.disk.section < |w.content| && |w.content[c.disk.section]| + |txn| <= 65536
               && |txn| <= c.disk.room && c.disk.syncs
            then w'.txns.published == w.txns.published + [txn] && w'.places == w.places + [c.disk.section]
            else w'.txns.published == w.txns.published && w'.places == w.places && w'.content == w.content
  {
    if c.op.Put? { PushedView(w.txns, Built(c.op.record)); }
  }

  lemma CalledQuietly(w: World, c: Call)
    requires Sound(c) && !Writes(w, c)
    ensures Called(w, c).txns.published == w.txns.published && Called(w, c).places == w.places
    ensures !c.AddSection? ==> Called(w, c).content == w.content
  {
    if c.Do? && c.op.Put? { PushedView(w.txns, Built(c.op.record)); }
  }

  lemma {:induction false} PublishedStays(w: World, calls: seq<Call>)
    requires AllSound(calls)
    ensures w.txns.published <= RunCalls(w, calls).txns.published && w.places <= RunCalls(w, calls).places
    decreases |calls|
  {
    hide Called, Writes;
    if calls != [] {
      if Writes(w, calls[0]) { CalledPublishes(w, calls[0]); } else { CalledQuietly(w, calls[0]); }
      PublishedStays(Called(w, calls[0]), calls[1..]);
    }
  }

  /** Over a whole run: whatever was published is the transaction of one call, which
      had a section with room for it, a disk that took all of it, and a sync that
      succeeded. */
  lemma {:induction false} PublishedWereWritten(w: World, calls: seq<Call>, k: nat) returns (n: nat)
    requires AllSound(calls) && |w.places| == |w.txns.published|
    requires |w.places| <= k < |RunCalls(w, calls).places|
    ensures n < |calls| && k < |RunCalls(w, calls).txns.published|
    ensures var v, c, end := RunCalls(w, calls[..n]), calls[n], RunCalls(w, calls);
            && Writes(v, c) && |v.places| == k
            && end.txns.published[k] == TxnOf(v, c) && end.places[k] == c.disk.section
            && c.disk.section < |v.content| && |v.content[c.disk.section]| + |TxnOf(v, c)| <= 65536
            && |TxnOf(v, c)| <= c.disk.room && c.disk.syncs
    decreases |calls|
  {
    hide Called, Writes, TxnOf;
    var w1 := Called(w, calls[0]);
    if Writes(w, calls[0]) { CalledPublishes(w, calls[0]); } else { CalledQuietly(w, calls[0]); }
    if k < |w1.places| {
      n := 0;
      PublishedStays(w1, calls[1..]);
    } else {
      n := PublishedWereWritten(w1, calls[1..], k);
      n := n + 1;
      assert calls[..n][1..] == calls[1..][..n - 1] && calls[..n][0] == calls[0];
    }
  }

  // ------------------------------------------------------------------ sizes

  function TotalSize(parts: seq<seq<byte>>): nat {
    |Flatten(parts)|
  }

  function StateSize(s: Scripts.Txns): nat {
    TotalSize(s.frames) + TotalSize(s.published)
  }

  function OpSize(op: Scripts.Op): nat
    requires op.Put? ==> Storable(op.record)
  {
    if op.Put? then |Encode(op.record)| else 0
  }

  /** Bytes of all puts of a script. */
  function ScriptSize(ops: seq<Scripts.Op>): nat
    requires Scripts.AllStorable(ops)
  {
    if ops == [] then 0 else OpSize(ops[0]) + ScriptSize(ops[1..])
  }

  function CallsSize(calls: seq<Call>): nat
    requires AllSound(calls)
  {
    if calls == [] then 0 else (if calls[0].Do? then OpSize(calls[0].op) else 0) + CallsSize(calls[1..])
  }

  lemma SizeWithTop(frames: seq<seq<byte>>)
    requires frames != []
    ensures TotalSize(frames) == TotalSize(frames[..|frames| - 1]) + |frames[|frames| - 1]|
  {
    FlattenAppend(frames[..|frames| - 1], frames[|frames| - 1]);
    assert frames == frames[..|frames| - 1] + [frames[|frames| - 1]];
  }

  lemma CommitSize(s: Scripts.Txns)
    requires s.frames != []
    ensures StateSize(Scripts.CommitTop(s)) == StateSize(s)
    ensures |s.frames| > 1 ==> |s.frames[|s.frames| - 2]| + |Scripts.Top(s)| <= StateSize(s)
    ensures |Scripts.Top(s)| + TotalSize(s.published) <= StateSize(s)
  {
    var outer, top := Scripts.Outer(s), Scripts.Top(s);
    SizeWithTop(s.frames);
    if outer != [] {
      var n := |outer| - 1;
      var merged := outer[n := outer[n] + top];
      SizeWithTop(outer);
      SizeWithTop(merged);
      assert merged[..n] == outer[..n];
    } else {
      FlattenAppend(s.published, top);
    }
  }

  lemma PushedSize(s: Scripts.Txns, bytes: seq<byte>)
    ensures StateSize(Pushed(s, bytes)) == StateSize(s) + |bytes|
  {
    SizeWithTop(Pushed(s, bytes).frames);
    assert Pushed(s, bytes).frames[..|s.frames|] == s.frames;
  }

  lemma StepSize(s: Scripts.Txns, op: Scripts.Op)
    requires op.Put? ==> Storable(op.record)
    ensures StateSize(Scripts.Step(s, op)) <= StateSize(s) + OpSize(op)
  {
    match op
    case Begin => PushedSize(s, []); assert Pushed(s, []).frames == s.frames + [[]];
    case Put(r) => PushedSize(s, Encode(r)); CommitSize(Pushed(s, Encode(r)));
    case Commit => if s.frames != [] { CommitSize(s); }
    case Rollback => if s.frames != [] { SizeWithTop(s.frames); }
  }

  /** The size of what a call commits. */
  lemma CommittingSize(w: World, c: Call)
    requires Sound(c) && c.Do?
    ensures StateSize(Committing(w, c)) <= StateSize(w.txns) + OpSize(c.op)
  {
    if c.op.Put? { PushedSize(w.txns, Built(c.op.record)); }
  }

  /** Fewer than 2^32 bytes cannot overflow a transaction. */
  lemma {:induction false} SmallRunsFit(w: World, calls: seq<Call>)
    requires AllSound(calls) && StateSize(w.txns) + CallsSize(calls) < U32_LIMIT
    ensures NoOverflow(w, calls)
    decreases |calls|
  {
    hide Built, Called, StateSize, Scripts.CommitTop;
    if calls != [] {
      var c := calls[0];
      if c.Do? {
        CommittingSize(w, c);
        StepSize(w.txns, c.op);
        if Commits(w, c) { CommitSize(Committing(w, c)); }
      }
      CalledTxns(w, c);
      SmallRunsFit(Called(w, c), calls[1..]);
    }
  }

  // ------------------------------------------------------------ one section

  /** The disk of a run in which every write succeeds. */
  function GoodDisk(): Disk {
    Disk(0, SECTION_SIZE, true)
  }

  function OnGoodDisk(ops: seq<Scripts.Op>): seq<Call> {
    if ops == [] then [] else [Do(ops[0], GoodDisk())] + OnGoodDisk(ops[1..])
  }

  /** One section holds all that was published. */
  predicate Single(w: World) {
    w.content == [Flatten(w.txns.published)]
  }

  lemma StepOnGoodDisk(w: World, op: Scripts.Op)
    requires Single(w) && (op.Put? ==> Storable(op.record)) && StateSize(w.txns) + OpSize(op) < SECTION_SIZE
    ensures var c := Do(op, GoodDisk());
            && Sound(c) && Effective(w, c) && !Overflows(w, c) && !Fills(w, c) && Single(Called(w, c))
  {
    var c := Do(op, GoodDisk());
    CommittingSize(w, c);
    if Commits(w, c) {
      var s := Committing(w, c);
      CommitSize(s);
      FlattenAppend(s.published, Scripts.Top(s));
    }
  }

  lemma OneMore(w: World, c: Call, rest: seq<Call>)
    requires Sound(c) && AllSound(rest)
    ensures AllSound([c] + rest) && RunCalls(w, [c] + rest) == RunCalls(Called(w, c), rest)
    ensures Succeeding(w, [c] + rest) == (if Effective(w, c) then [c.op] else []) + Succeeding(Called(w, c), rest)
    ensures NoOverflow(w, [c] + rest) <==> !Overflows(w, c) && NoOverflow(Called(w, c), rest)
    ensures NoneFills(w, [c] + rest) <==> !Fills(w, c) && NoneFills(Called(w, c), rest)
  {
    hide Called, Effective, Overflows, Sound, Fills;
    var calls := [c] + rest;
    assert calls[0] == c && calls[1..] == rest;
  }

  lemma {:induction false} RunOnGoodDisk(w: World, ops: seq<Scripts.Op>)
    requires Single(w) && Scripts.AllStorable(ops) && StateSize(w.txns) + ScriptSize(ops) < SECTION_SIZE
    ensures AllSound(OnGoodDisk(ops)) && NoOverflow(w, OnGoodDisk(ops)) && Succeeding(w, OnGoodDisk(ops)) == ops
    ensures NoneFills(w, OnGoodDisk(ops))
    ensures Single(RunCalls(w, OnGoodDisk(ops)))
    decreases |ops|
  {
    hide Called, StateSize, Single, Effective, Overflows, Fills, Sound, OpSize, Scripts.Step;
    if ops != [] {
      var c := Do(ops[0], GoodDisk());
      StepOnGoodDisk(w, ops[0]);
      StepSize(w.txns, ops[0]);
      CalledTxns(w, c);
      RunOnGoodDisk(Called(w, c), ops[1..]);
      OneMore(w, c, OnGoodDisk(ops[1..]));
      assert [ops[0]] + ops[1..] == ops;
    }
  }

  lemma OneSection(bytes: seq<byte>)
    requires Whole(bytes)
    ensures Cursor.WholeStore([bytes]) && Cursor.AllRecords([bytes], 0) == RecordsOf(bytes)
  {
    assert Cursor.AllRecords([bytes], 1) == [];
  }

  /** In one section, the records are in program order. */
  lemma InOrder(ops: seq<Scripts.Op>)
    requires Scripts.AllStorable(ops) && ScriptSize(ops) < SECTION_SIZE
    ensures AllSound(OnGoodDisk(ops)) && Cursor.WholeStore(RunCalls(Start([[]]), OnGoodDisk(ops)).content)
    ensures Cursor.AllRecords(RunCalls(Start([[]]), OnGoodDisk(ops)).content, 0) == Scripts.Surviving(ops, 0)
  {
    hide Called, Sound, Whole, Scripts.Step;
    var start := Start([[]]);
    assert Flatten<byte>([]) == [];
    RunOnGoodDisk(start, ops);
    RunIsScript(start, OnGoodDisk(ops));
    Scripts.PublishedAreSurvivors(ops);
    OneSection(Flatten(RunCalls(start, OnGoodDisk(ops)).txns.published));
  }

  /** Two puts that together fill a section: both succeed, and neither is there. */
  lemma FillingLosesBoth(r1: Record, r2: Record)
    requires Storable(r1) && Storable(r2) && |Encode(r1)| + |Encode(r2)| == SECTION_SIZE
    ensures var calls, start := OnGoodDisk([Scripts.Put(r1), Scripts.Put(r2)]), Start([[]]);
            && AllSound(calls) && NoOverflow(start, calls) && !NoneFills(start, calls)
            && Scripts.Surviving(Succeeding(start, calls), 0) == [r1, r2]
            && RunCalls(start, calls).content == [[]]
  {
    hide Encode;
    var start, c1, c2 := Start([[]]), Do(Scripts.Put(r1), GoodDisk()), Do(Scripts.Put(r2), GoodDisk());
    EncodeSize(r1);
    EncodeSize(r2);
    var ops := [Scripts.Put(r1), Scripts.Put(r2)];
    assert ops[1..] == [Scripts.Put(r2)] && ops[1..][1..] == [];
    assert OnGoodDisk(ops[1..]) == [c2] && OnGoodDisk(ops) == [c1, c2];
    var w1 := PutAlone(start, r1);
    var w2 := PutAlone(w1, r2);
    assert RunCalls(w2, []) == w2;
    OneMore(w1, c2, []);
    OneMore(start, c1, [c2]);
    assert [c1] + [c2] == [c1, c2] && [c2] + [] == [c2];
    assert Succeeding(start, [c1, c2]) == ops;
    assert Scripts.Surviving(ops[1..], 0) == [r2];
  }

  lemma EncodeSize(r: Record)
    requires Storable(r)
    ensures |Encode(r)| == RECORD_HEADER_SIZE + |r.key| + |r.value|
  {
  }

  /** A put outside of any transaction, into the first section. */
  lemma PutAlone(w: World, r: Record) returns (w': World)
    requires Storable(r) && Encodable(r) && w.txns.frames == [] && |w.content| == 1
    requires |w.content[0]| + |Encode(r)| <= SECTION_SIZE && |Encode(r)| > 0
    ensures var c := Do(Scripts.Put(r), GoodDisk());
            && Sound(c) && w' == Called(w, c) && Effective(w, c) && !Overflows(w, c)
            && (Fills(w, c) <==> |w.content[0]| + |Encode(r)| == SECTION_SIZE)
            && w'.txns.frames == [] && w'.content == Placed(w.content, 0, Encode(r))
  {
    hide Encode;
    PushedView(w.txns, Built(r));
    w' := Called(w, Do(Scripts.Put(r), GoodDisk()));
  }

  /** What a run makes of a database that holds whole records. */
  lemma AboutRun(base: Store, calls: seq<Call>)
    requires Cursor.WholeStore(base) && AllSound(calls)
    ensures var (w, start) := (RunCalls(Start(base), calls), Start(base));
            && (Laid(base, w) <==> NoneFills(start, calls)) && Cursor.WholeStore(w.content)
            && (CallsSize(calls) < U32_LIMIT ==> NoOverflow(start, calls))
            && (NoOverflow(start, calls) && NoneFills(start, calls) ==>
                  multiset(Cursor.AllRecords(w.content, 0))
                  == multiset(Cursor.AllRecords(base, 0)) + multiset(Scripts.Surviving(Succeeding(start, calls), 0)))
  {
    hide Laid, NoneFills, NoOverflow, RunCalls, AllSound;
    StartReadable(base);
    RunLaid(base, Start(base), calls);
    RunReadable(base, Start(base), calls);
    if CallsSize(calls) < U32_LIMIT { SmallRunsFit(Start(base), calls); }
    if NoOverflow(Start(base), calls) && NoneFills(Start(base), calls) { ReadBack(base, calls); }
  }
}
