// logdb_txn.c: the transactions of one thread, as a stack of ropes, proved
// against `Scripts.Step`.
//
// A transaction that merges into an outer one without a buffer hands its buffer
// over. The code does not: see `MergeAsWritten`.
module Sessions {
  import opened Bytes
  import opened Layout
  import opened FileFormat
  import opened Recovery
  import opened Records
  import opened Rope
  import opened RopeOps
  import opened Buffers
  import opened Leases
  import opened WriteBuffer
  import opened Frames
  import Scripts

  /** Where a commit goes and how the disk behaves: the section whose lease is
      granted, the bytes that can be written, whether the sync succeeds. */
  datatype Disk = Disk(section: nat, room: nat, syncs: bool)

  /** The lease is granted, and everything can be written. */
  predicate Grants(entries: seq<nat>, disk: Disk, size: nat) {
    disk.section < |entries| && entries[disk.section] + size <= SECTION_SIZE && size <= disk.room && disk.syncs
  }

  /** The commit of the innermost transaction writes to the disk. */
  predicate Publishes(s: Scripts.Txns)
    requires s.frames != []
  {
    |s.frames| == 1 && Scripts.Top(s) != []
  }

  /** With an implicit transaction on top. */
  function Pushed(s: Scripts.Txns, bytes: seq<byte>): Scripts.Txns {
    Scripts.Txns(s.frames + [bytes], s.published)
  }

  lemma PushedView(s: Scripts.Txns, bytes: seq<byte>)
    ensures Scripts.Top(Pushed(s, bytes)) == bytes && Scripts.Outer(Pushed(s, bytes)) == s.frames
  {
  }

  /** The length of the record has 32 bits. */
  predicate Encodable(r: Record) {
    RECORD_HEADER_SIZE + |r.key| + |r.value| < U32_LIMIT
  }

  /** What `logdb_put` commits. */
  function Built(r: Record): seq<byte> {
    if RECORD_HEADER_SIZE + |r.key| >= U32_LIMIT then r.value else if Encodable(r) then Encode(r) else []
  }

  /** The references that the caller of `logdb_put` still has. */
  function StillHeld(others: multiset<Ptr>, r: Record, value: Ptr): multiset<Ptr> {
    if RECORD_HEADER_SIZE + |r.key| >= U32_LIMIT then others - multiset{value} else others
  }

  /** A merged buffer's length has 32 bits. */
  predicate Fits(s: Scripts.Txns)
    requires s.frames != []
  {
    |s.frames| > 1 && Scripts.Top(s) != [] ==> |s.frames[|s.frames| - 2]| + |Scripts.Top(s)| < U32_LIMIT
  }

  /** What the code does otherwise: the outer transaction loses what it had. */
  function Lost(s: Scripts.Txns): Scripts.Txns
    requires |s.frames| > 1
  {
    Scripts.Txns(s.frames[..|s.frames| - 2] + [[]], s.published)
  }

  class Session {
    const heap: BufferHeap
    const database: Database
    var frames: seq<Option<Ptr>>           // buffer of each open transaction, innermost last
    ghost var others: multiset<Ptr>        // references held by the caller
    ghost var published: seq<seq<byte>>    // what was committed, in order
    ghost var places: seq<nat>             // and the section each part went to

    ghost function View(): Scripts.Txns
      reads this, heap
    {
      Scripts.Txns(FrameBytes(heap.Here(), heap.rank, frames), published)
    }

    ghost predicate Accounted()
      reads this, heap, database
    {
      && heap.Valid() && database.Valid()
      && heap.handles == others + Refs(frames) && Heads(heap.Here(), others)
      && |places| == |published|
    }

    ghost predicate Valid()
      reads this, heap, database
    {
      Accounted() && FramesOk(heap.Here(), heap.rank, frames)
    }

    /** Everything but the innermost transaction's buffer is in order. */
    ghost predicate ValidBelow()
      reads this, heap, database
    {
      && Accounted() && frames != []
      && FramesOk(heap.Here(), heap.rank, frames[..|frames| - 1])
    }

    constructor (h: BufferHeap, db: Database)
      requires h.Valid() && db.Valid() && Heads(h.Here(), h.handles)
      ensures Valid() && heap == h && database == db && View() == Scripts.Txns([], []) && places == []
      ensures others == h.handles
    {
      heap, database, frames := h, db, [];
      others, published, places := h.handles, [], [];
    }

    /** `logdb_begin`. */
    method Begin()
      requires Valid()
      modifies this`frames
      ensures Valid() && View() == Scripts.Step(old(View()), Scripts.Begin)
    {
      hide HeapOk, Live, Heads, FrameOk, FramesOk, Refs, FrameBytes;
      FramesPush(heap.Here(), heap.rank, frames, None);
      assert Refs(frames) + RefOf(None) == Refs(frames);
      frames := frames + [None];
    }

    /** `logdb_txn_close` of the innermost transaction. */
    method Close()
      requires ValidBelow()
      modifies this`frames, heap
      ensures Valid() && frames == old(frames[..|frames| - 1])
      ensures FrameBytes(heap.Here(), heap.rank, frames)
              == old(FrameBytes(heap.Here(), heap.rank, frames[..|frames| - 1]))
      ensures SeesSame(others, old(heap.Here()), old(heap.rank), heap.Here(), heap.rank)
    {
      hide HeapOk, Live, SameContents, Survivors, FramesOk, SeesSame, Heads, FrameBytes, InDb, SmallLens, Refs;
      RefsPop(frames);
      var buf := frames[|frames| - 1];
      frames := frames[..|frames| - 1];
      if buf.Some? {
        GiveBack(buf.value);
      } else {
        SeesItself(heap.Here(), heap.rank, others);
      }
    }

    /** Frees a buffer that is none of the open transactions'. */
    method GiveBack(buf: Ptr)
      requires heap.Valid() && heap.handles == others + Refs(frames) + multiset{buf}
      requires Heads(heap.Here(), others) && FramesOk(heap.Here(), heap.rank, frames)
      modifies heap
      ensures heap.Valid() && heap.handles == others + Refs(frames)
      ensures Heads(heap.Here(), others) && FramesOk(heap.Here(), heap.rank, frames)
      ensures FrameBytes(heap.Here(), heap.rank, frames) == old(FrameBytes(heap.Here(), heap.rank, frames))
      ensures SeesSame(others, old(heap.Here()), old(heap.rank), heap.Here(), heap.rank)
    {
      hide HeapOk, Live, SameContents, Survivors, FramesOk, SeesSame, Heads, Refs;
      ghost var h, refs, limit := heap.Here(), heap.handles + heap.lost, heap.limit;
      heap.Free(buf);
      assert heap.handles + heap.lost == refs - multiset{buf};
      FreeFrames(h, heap.rank, refs, limit, heap.Here(), heap.handles + heap.lost, heap.limit, frames, buf);
      FreeHeads(h, heap.rank, heap.Here(), heap.handles + heap.lost, heap.limit, others);
    }

    /** `logdb_rollback`. */
    method Rollback() returns (ok: bool)
      requires Valid()
      modifies this`frames, heap
      ensures Valid() && View() == Scripts.Step(old(View()), Scripts.Rollback) && (ok <==> old(frames) != [])
      ensures SeesSame(others, old(heap.Here()), old(heap.rank), heap.Here(), heap.rank)
    {
      if frames == [] {
        SeesItself(heap.Here(), heap.rank, others);
        return false;
      }
      assert FrameBytes(heap.Here(), heap.rank, frames)[..|frames| - 1]
             == FrameBytes(heap.Here(), heap.rank, frames[..|frames| - 1]);
      Close();
      ok := true;
    }

    /** The bytes of all transactions but the last but one. */
    ghost function WithoutOuter(): seq<seq<byte>>
      requires |frames| >= 2
      reads this, heap
    {
      FrameBytes(heap.Here(), heap.rank, frames[..|frames| - 2] + [frames[|frames| - 1]])
    }

    /** A nested commit whose outer transaction has no buffer yet: it takes over
        the inner one. */
    method HandOver()
      requires Valid() && |frames| >= 2 && frames[|frames| - 2].None? && frames[|frames| - 1].Some?
      modifies this`frames, heap
      ensures Valid()
      ensures View().frames == old(WithoutOuter())
      ensures SeesSame(others, old(heap.Here()), old(heap.rank), heap.Here(), heap.rank)
    {
      hide HeapOk, Live, Heads, Refs, FramesOk, SeesSame;
      ghost var h, rank := heap.Here(), heap.rank;
      var n := |frames|;
      var below, inner := frames[..n - 2], frames[n - 1];
      assert frames == (below + [None]) + [inner];
      FramesPush(h, rank, below, None);
      FramesPush(h, rank, below + [None], inner);
      FramesPush(h, rank, below, inner);
      FramesPush(h, rank, below + [inner], None);
      frames := below + [inner] + [None];
      assert frames[..n - 1] == below + [inner];
      Close();
    }

    /** A nested commit whose outer transaction has a buffer. When the two are
        too long together the code loses the outer buffer. */
    method AppendToOuter() returns (ghost fits: bool)
      requires Valid() && |frames| >= 2 && frames[|frames| - 2].Some? && frames[|frames| - 1].Some?
      modifies this`frames, this`others, heap
      ensures Valid()
      ensures fits <==>
                |old(heap.BytesOf(frames[|frames| - 2].value))| + |old(heap.BytesOf(frames[|frames| - 1].value))|
                < U32_LIMIT
      ensures View().frames == old(FrameBytes(heap.Here(), heap.rank, frames[..|frames| - 2]))
                               + [if fits then old(heap.BytesOf(frames[|frames| - 2].value))
                                               + old(heap.BytesOf(frames[|frames| - 1].value)) else []]
      ensures old(others) <= others && (fits ==> others == old(others))
      ensures SeesSame(old(others), old(heap.Here()), old(heap.rank), heap.Here(), heap.rank)
    {
      hide HeapOk, Live, Heads, Refs, FramesOk, SeesSame, Private;
      ghost var h, rank, before := heap.Here(), heap.rank, others;
      var merged := JoinTop();
      ghost var h1, rank1 := heap.Here(), heap.rank;
      fits := merged.Some?;
      assert frames[..|frames| - 1] == old(frames[..|frames| - 2]) + [merged];
      FramesPush(h1, rank1, old(frames[..|frames| - 2]), merged);
      Close();
      SeesThrough(before, others, h, rank, h1, rank1, heap.Here(), heap.rank);
    }

    method JoinTop() returns (merged: Option<Ptr>)
      requires Valid() && |frames| >= 2 && frames[|frames| - 2].Some? && frames[|frames| - 1].Some?
      modifies this`frames, this`others, heap
      ensures ValidBelow() && old(others) <= others
      ensures frames == old(frames[..|frames| - 2]) + [merged] + [old(frames[|frames| - 1])]
      ensures merged.Some? <==>
                |old(heap.BytesOf(frames[|frames| - 2].value))| + |old(heap.BytesOf(frames[|frames| - 1].value))|
                < U32_LIMIT
      ensures merged.Some? ==>
                && others == old(others)
                && heap.BytesOf(merged.value)
                   == old(heap.BytesOf(frames[|frames| - 2].value)) + old(heap.BytesOf(frames[|frames| - 1].value))
      ensures FrameBytes(heap.Here(), heap.rank, old(frames[..|frames| - 2]))
              == old(FrameBytes(heap.Here(), heap.rank, frames[..|frames| - 2]))
      ensures SeesSame(old(others), old(heap.Here()), old(heap.rank), heap.Here(), heap.rank)
    {
      hide HeapOk, WellFormed, Live, Heads, Refs, FramesOk, SeesSame, FrameOk, FrameBytes, InDb, SmallLens;
      ghost var before := others;
      var n := |frames|;
      var below, outer, inner := frames[..n - 2], frames[n - 2].value, frames[n - 1].value;
      TopTwo(heap.Here(), heap.rank, heap.handles, heap.lost, heap.limit, frames, others);
      merged := Join(below, outer, inner);
      others := if merged.Some? then others else others + multiset{outer};
      SumOfRefs(before, below, outer, inner, merged, others);
      FewerHeads(heap.Here(), before + multiset{outer}, others);
      frames := below + [merged] + [Some(inner)];
      assert frames[..n - 1] == below + [merged];
    }

    /** `logdb_buffer_append` to a transaction's buffer. */
    method Join(below: seq<Option<Ptr>>, outer: Ptr, inner: Ptr) returns (merged: Option<Ptr>)
      requires heap.Valid() && others + multiset{outer} <= heap.handles
      requires Refs(below) + multiset{outer} + multiset{inner} <= heap.handles && outer != inner
      requires Heads(heap.Here(), others) && FramesOk(heap.Here(), heap.rank, below)
      requires FrameOk(heap.Here(), heap.rank, outer) && IsHead(heap.Here(), inner) && |heap.BytesOf(inner)| < U32_LIMIT
      modifies heap
      ensures heap.Valid() && heap.handles == old(heap.handles)
      ensures merged == if |old(heap.BytesOf(outer))| + |old(heap.BytesOf(inner))| < U32_LIMIT then Some(outer)
                        else None
      ensures merged.Some? ==> heap.BytesOf(outer) == old(heap.BytesOf(outer)) + old(heap.BytesOf(inner))
      ensures merged.None? ==> heap.nodes == old(heap.nodes)
      ensures FramesOk(heap.Here(), heap.rank, below + [merged])
      ensures FrameBytes(heap.Here(), heap.rank, below) == old(FrameBytes(heap.Here(), heap.rank, below))
      ensures Heads(heap.Here(), others + multiset{outer})
      ensures SeesSame(others, old(heap.Here()), old(heap.rank), heap.Here(), heap.rank)
    {
      hide HeapOk, Live, Heads, Refs, FramesOk, SeesSame, Leads, FrameBytes, AllGrown, LastOf;
      ghost var h, rank, refs, limit := heap.Here(), heap.rank, heap.handles + heap.lost, heap.limit;
      PrivateUnreached(h, rank, refs, limit, outer);
      MoreHeads(h, others, outer);
      merged := heap.Append(Some(outer), inner);
      if merged.Some? {
        ghost var last := LastOf(h, rank, outer);
        MergeFrames(h, rank, refs, limit, outer, inner, last, heap.Here(), heap.rank, below, others);
        FramesPush(heap.Here(), heap.rank, below, merged);
        MoreHeads(heap.Here(), others, outer);
      } else {
        FramesPush(h, rank, below, None);
        SeesItself(h, rank, others);
      }
    }

    /** The last part of `logdb_txn_commit`: lease, write, sync, entry. */
    method Publish(disk: Disk) returns (ok: bool)
      requires Valid() && |frames| == 1 && frames[0].Some?
      modifies this`frames, this`published, this`places, heap, database
      ensures Valid() && |database.entries| == old(|database.entries|)
      ensures old(database.Synced()) ==> database.Synced()
      ensures ok <==> Grants(old(database.entries), disk, |old(heap.BytesOf(frames[0].value))|)
      ensures !disk.syncs ==> !ok
      ensures ok ==>
                && frames == [] && published == old(published) + [old(heap.BytesOf(frames[0].value))]
                && places == old(places) + [disk.section]
                && database.Content()
                   == Placed(old(database.Content()), disk.section, old(heap.BytesOf(frames[0].value)))
      ensures !ok ==> View() == old(View()) && places == old(places) && database.Content() == old(database.Content())
      ensures SeesSame(others, old(heap.Here()), old(heap.rank), heap.Here(), heap.rank)
    {
      hide HeapOk, Live, Heads, Refs, FramesOk, SeesSame, InDb, Sections, SmallLens;
      ghost var h, rank := heap.Here(), heap.rank;
      var p := frames[0].value;
      TopFacts(h, rank, heap.handles + heap.lost, heap.limit, frames);
      SeesItself(h, rank, others);
      var len := heap.Length(frames[0]);
      ok := WriteTxn(heap, database, p, len, disk);
      if !ok { return; }
      published, places := published + [heap.BytesOf(p)], places + [disk.section];
      NoFrames(h, rank);
      assert frames[..0] == [];
      Close();
    }

    /** `logdb_txn_commit` of the innermost transaction. */
    method CommitTop(disk: Disk) returns (ok: bool)
      requires Valid() && frames != []
      modifies this`frames, this`others, this`published, this`places, heap, database
      ensures Valid() && |database.entries| == old(|database.entries|)
      ensures old(database.Synced()) ==> database.Synced()
      ensures ok <==> !Publishes(old(View())) || Grants(old(database.entries), disk, |Scripts.Top(old(View()))|)
      ensures Publishes(old(View())) && !disk.syncs ==> !ok && database.Content() == old(database.Content())
      ensures View() == if !ok then old(View())
                        else if Fits(old(View())) then Scripts.CommitTop(old(View())) else Lost(old(View()))
      ensures database.Content() == if ok && Publishes(old(View()))
                                    then Placed(old(database.Content()), disk.section, Scripts.Top(old(View())))
                                    else old(database.Content())
      ensures places == old(places) + if ok && Publishes(old(View())) then [disk.section] else []
      ensures old(others) <= others && (!ok || Fits(old(View())) ==> others == old(others))
      ensures !Fits(old(View())) ==> |frames| == |old(frames)| - 1 > 0 && View().frames[|frames| - 1] == []
      ensures SeesSame(old(others), old(heap.Here()), old(heap.rank), heap.Here(), heap.rank)
    {
      hide HeapOk, Live, Heads, Refs, FramesOk, SeesSame, InDb, Sections, SmallLens, Grants, Placed, FrameOk;
      ghost var h, rank := heap.Here(), heap.rank;
      var n := |frames|;
      var len := TopLength();
      if len == 0 {
        FramesBelow(h, rank, frames);
        Close();
        return true;
      }
      if n > 1 {
        MergeTop();
        return true;
      }
      assert View().frames == [heap.BytesOf(frames[0].value)];
      ok := Publish(disk);
    }

    /** The commit of a nested transaction that has bytes. */
    method MergeTop()
      requires Valid() && |frames| > 1 && Scripts.Top(View()) != [] && frames[|frames| - 1].Some?
      modifies this`frames, this`others, heap
      ensures Valid()
      ensures View() == if Fits(old(View())) then Scripts.CommitTop(old(View())) else Lost(old(View()))
      ensures old(others) <= others && (Fits(old(View())) ==> others == old(others))
      ensures SeesSame(old(others), old(heap.Here()), old(heap.rank), heap.Here(), heap.rank)
    {
      hide HeapOk, Live, Heads, Refs, FramesOk, SeesSame, InDb, Sections, SmallLens, FrameOk;
      ghost var h, rank := heap.Here(), heap.rank;
      var n := |frames|;
      TopFacts(h, rank, heap.handles + heap.lost, heap.limit, frames);
      SplitFrames(h, rank, frames);
      MergedView(View(), FrameBytes(h, rank, frames[..n - 2]), LiveRest(h, rank, frames[n - 2]),
                 LiveRest(h, rank, frames[n - 1]));
      if frames[n - 2].None? { HandOver(); } else { var _ := AppendToOuter(); }
    }

    /** `logdb_buffer_length` of the innermost transaction's buffer. */
    method TopLength() returns (len: nat)
      requires Valid() && frames != []
      ensures len == |Scripts.Top(View())| < U32_LIMIT
      ensures len > 0 ==> frames[|frames| - 1].Some?
    {
      hide HeapOk, WellFormed, Live, Heads, Refs, FramesOk;
      TopFacts(heap.Here(), heap.rank, heap.handles + heap.lost, heap.limit, frames);
      len := heap.Length(frames[|frames| - 1]);
    }

    /** The buffer that `logdb_put` builds: the record, unless its length does not
        fit 32 bits. Then nothing, or even the value alone, takes its place. */
    method BuildRecord(key: Ptr, value: Ptr) returns (buf: Option<Ptr>, header: Ptr)
      requires Valid() && key in others && value in others
      requires |heap.BytesOf(key)| < U32_LIMIT && |heap.BytesOf(value)| < U32_LIMIT
      modifies heap
      ensures heap.Valid() && heap.handles == old(heap.handles) + multiset{header}
      ensures Heads(heap.Here(), others + multiset{header}) && FramesOk(heap.Here(), heap.rank, frames)
      ensures FrameBytes(heap.Here(), heap.rank, frames) == old(FrameBytes(heap.Here(), heap.rank, frames))
      ensures SeesSame(others, old(heap.Here()), old(heap.rank), heap.Here(), heap.rank)
      ensures buf == Some(value) ==>
                value in heap.nodes && (value in old(heap.nodes) ==> heap.nodes[value] == old(heap.nodes)[value])
      ensures var r := Record(old(heap.BytesOf(key)), old(heap.BytesOf(value)));
              if RECORD_HEADER_SIZE + |r.key| >= U32_LIMIT then buf == Some(value)
              else if RECORD_HEADER_SIZE + |r.key| + |r.value| >= U32_LIMIT then buf == None
              else buf == Some(header) && FrameOk(heap.Here(), heap.rank, header) && heap.BytesOf(header) == Encode(r)
    {
      hide HeapOk, WellFormed, Live, Heads, Refs, FramesOk, SeesSame, Private, SameContents, FrameBytes;
      ghost var h0, rank0 := heap.Here(), heap.rank;
      var keylen := UserLength(key);
      var valuelen := UserLength(value);
      header := StartRecord(Header(keylen, valuelen));
      ghost var h1, rank1 := heap.Here(), heap.rank;
      Sees(others, h0, rank0, h1, rank1, key);
      var joined := Join(frames, header, key);
      ghost var h2, rank2 := heap.Here(), heap.rank;
      FewerHeads(h2, others + multiset{header}, others);
      FramesPush(h2, rank2, frames, joined);
      SeesThrough(others, others, h0, rank0, h1, rank1, h2, rank2);
      Sees(others, h0, rank0, h2, rank2, value);
      if joined.None? {
        buf := heap.Append(None, value);
      } else {
        buf := Join(frames, header, value);
        FewerHeads(heap.Here(), others + multiset{header}, others);
        FramesPush(heap.Here(), heap.rank, frames, buf);
        SeesThrough(others, others, h0, rank0, h2, rank2, heap.Here(), heap.rank);
      }
    }

    method UserLength(p: Ptr) returns (len: nat)
      requires Valid() && p in others && |heap.BytesOf(p)| < U32_LIMIT
      ensures len == |heap.BytesOf(p)|
    {
      hide HeapOk, WellFormed, Live, Heads, Refs, FramesOk;
      HeadFacts(heap.Here(), heap.rank, heap.handles + heap.lost, heap.limit, p);
      len := heap.Length(Some(p));
    }

    method StartRecord(bytes: seq<byte>) returns (header: Ptr)
      requires Valid() && |bytes| < U32_LIMIT
      modifies heap
      ensures heap.Valid() && heap.handles == old(heap.handles) + multiset{header}
      ensures header !in others && header !in Refs(frames)
      ensures FrameOk(heap.Here(), heap.rank, header) && heap.BytesOf(header) == bytes
      ensures forall x :: x in old(heap.nodes) ==> x in heap.nodes && heap.nodes[x] == old(heap.nodes)[x]
      ensures Heads(heap.Here(), others) && FramesOk(heap.Here(), heap.rank, frames)
      ensures FrameBytes(heap.Here(), heap.rank, frames) == old(FrameBytes(heap.Here(), heap.rank, frames))
      ensures SeesSame(others, old(heap.Here()), old(heap.rank), heap.Here(), heap.rank)
    {
      hide HeapOk, WellFormed, Live, Heads, Refs, FramesOk, SeesSame, SameContents, FrameBytes;
      ghost var h, rank, refs, limit := heap.Here(), heap.rank, heap.handles + heap.lost, heap.limit;
      header := heap.NewCopy(bytes);
      NewFrames(h, rank, heap.Here(), heap.rank, frames, others);
      if header in others + Refs(frames) {
        assert header in refs;
        NodeFacts(h, rank, refs, limit, header);
        assert false;
      }
    }

    /** The implicit transaction of `logdb_put`. */
    method PushRecord(key: Ptr, value: Ptr)
      requires Valid() && key in others && value in others
      requires |heap.BytesOf(key)| < U32_LIMIT && |heap.BytesOf(value)| < U32_LIMIT
      requires RECORD_HEADER_SIZE + |heap.BytesOf(key)| >= U32_LIMIT ==> Private(heap.Here(), value)
      modifies this`frames, this`others, heap
      ensures var r := Record(old(heap.BytesOf(key)), old(heap.BytesOf(value)));
              && Valid() && frames != [] && View() == Pushed(old(View()), Built(r))
              && StillHeld(old(others), r, value) <= others && (Encodable(r) ==> others == old(others))
              && SeesSame(StillHeld(old(others), r, value), old(heap.Here()), old(heap.rank), heap.Here(), heap.rank)
    {
      hide HeapOk, WellFormed, Live, Heads, Refs, FramesOk, SeesSame, FrameOk, Private, FrameBytes, InDb, SmallLens,
           HeldAfter;
      ghost var h0, rank0 := heap.Here(), heap.rank;
      ghost var r := Record(heap.BytesOf(key), heap.BytesOf(value));
      var buf, header := BuildRecord(key, value);
      ghost var h, rank := heap.Here(), heap.rank;
      Sees(others, h0, rank0, h, rank, value);
      if buf == Some(value) { StaysPrivate(h0, h, rank, value); }
      FewerSeen(others, StillHeld(others, r, value), h0, rank0, h, rank);
      FramesPush(h, rank, frames, buf);
      HandedOver(h, others, frames, r, value, header, buf);
      others := HeldAfter(others, value, header, buf);
      frames := frames + [buf];
    }

    /** `logdb_put`: an implicit transaction, closed whether or not it commits.
        When the record is too long, nothing is stored and the header leaks; when
        the key alone is, the bare value is stored and the caller's reference to
        it is used up. */
    method Put(key: Ptr, value: Ptr, disk: Disk) returns (ok: bool)
      requires Valid() && key in others && value in others
      requires |heap.BytesOf(key)| < U32_LIMIT && |heap.BytesOf(value)| < U32_LIMIT
      requires RECORD_HEADER_SIZE + |heap.BytesOf(key)| >= U32_LIMIT ==> Private(heap.Here(), value)
      modifies this`frames, this`others, this`published, this`places, heap, database
      ensures Valid() && |database.entries| == old(|database.entries|)
      ensures old(database.Synced()) ==> database.Synced()
      ensures var r := Record(old(heap.BytesOf(key)), old(heap.BytesOf(value)));
              var s := Pushed(old(View()), Built(r));
              && (ok <==> !Publishes(s) || Grants(old(database.entries), disk, |Built(r)|))
              && (Publishes(s) && !disk.syncs ==> !ok && database.Content() == old(database.Content()))
              && View() == (if !ok then old(View()) else if Fits(s) then Scripts.CommitTop(s) else Lost(s))
              && database.Content()
                 == (if ok && Publishes(s) then Placed(old(database.Content()), disk.section, Built(r))
                     else old(database.Content()))
              && places == old(places) + (if ok && Publishes(s) then [disk.section] else [])
              && StillHeld(old(others), r, value) <= others
              && (Encodable(r) && (!ok || Fits(s)) ==> others == old(others))
              && SeesSame(StillHeld(old(others), r, value), old(heap.Here()), old(heap.rank), heap.Here(), heap.rank)
    {
      hide HeapOk, WellFormed, Live, Heads, Refs, FramesOk, SeesSame, FrameOk, Private, InDb, Sections, SmallLens,
           Grants, Placed, Built;
      ghost var h0, rank0, s := heap.Here(), heap.rank, View();
      ghost var r := Record(heap.BytesOf(key), heap.BytesOf(value));
      ghost var seen := StillHeld(others, r, value);
      PushRecord(key, value);
      ghost var h1, rank1, pushed := heap.Here(), heap.rank, others;
      PushedView(s, Built(r));
      ok := CommitTop(disk);
      SeesThrough(seen, pushed, h0, rank0, h1, rank1, heap.Here(), heap.rank);
      if !ok {
        ghost var h2, rank2 := heap.Here(), heap.rank;
        FramesBelow(h2, rank2, frames);
        Close();
        SeesThrough(seen, pushed, h0, rank0, h2, rank2, heap.Here(), heap.rank);
      }
    }

    /** `logdb_commit`. */
    method Commit(disk: Disk) returns (ok: bool)
      requires Valid()
      modifies this`frames, this`others, this`published, this`places, heap, database
      ensures Valid() && |database.entries| == old(|database.entries|)
      ensures old(database.Synced()) ==> database.Synced()
      ensures old(frames) == [] ==>
                && !ok && View() == old(View()) && database.Content() == old(database.Content())
                && places == old(places) && others == old(others)
      ensures old(frames) != [] && Publishes(old(View())) && !disk.syncs ==>
                !ok && database.Content() == old(database.Content())
      ensures old(frames) != [] ==>
                && (ok <==> !Publishes(old(View())) || Grants(old(database.entries), disk, |Scripts.Top(old(View()))|))
                && View() == (if !ok then old(View())
                              else if Fits(old(View())) then Scripts.Step(old(View()), Scripts.Commit)
                              else Lost(old(View())))
                && database.Content() == (if ok && Publishes(old(View()))
                                          then Placed(old(database.Content()), disk.section, Scripts.Top(old(View())))
                                          else old(database.Content()))
                && places == old(places) + (if ok && Publishes(old(View())) then [disk.section] else [])
                && old(others) <= others && (!ok || Fits(old(View())) ==> others == old(others))
      ensures SeesSame(old(others), old(heap.Here()), old(heap.rank), heap.Here(), heap.rank)
    {
      hide HeapOk, Live, Refs, FramesOk, FrameOk, InDb, Sections, SmallLens, Grants, Placed;
      if frames == [] {
        SeesItself(heap.Here(), heap.rank, others);
        return false;
      }
      ok := CommitTop(disk);
    }

    /** The caller's own buffers. */
    method UserBuffer(bytes: seq<byte>) returns (p: Ptr)
      requires Valid() && |bytes| < U32_LIMIT
      modifies heap, this`others
      ensures Valid() && View() == old(View()) && others == old(others) + multiset{p} && heap.BytesOf(p) == bytes
      ensures SeesSame(old(others), old(heap.Here()), old(heap.rank), heap.Here(), heap.rank)
    {
      hide HeapOk, Live, Heads, Refs, FramesOk, SeesSame;
      p := StartRecord(bytes);
      MoreHeads(heap.Here(), others, p);
      others := others + multiset{p};
    }

    /** `logdb_buffer_free` by the caller; transactions keep what they need. */
    method Release(p: Ptr)
      requires Valid() && p in others
      modifies heap, this`others
      ensures Valid() && View() == old(View()) && others == old(others) - multiset{p}
      ensures SeesSame(others, old(heap.Here()), old(heap.rank), heap.Here(), heap.rank)
    {
      hide HeapOk, Live, Heads, Refs, FramesOk, SeesSame;
      FewerHeads(heap.Here(), others, others - multiset{p});
      others := others - multiset{p};
      GiveBack(p);
    }
  }

  /** Leases `len` bytes of a section, writes the rope, syncs, and writes the entry:
      what is committed is on the disk by then. */
  method WriteTxn(heap: BufferHeap, database: Database, p: Ptr, len: nat, disk: Disk) returns (ok: bool)
    requires WellFormed(heap.Here(), heap.rank) && p in heap.nodes && len == |heap.BytesOf(p)|
    requires database.Valid()
    modifies database
    ensures database.Valid() && |database.entries| == old(|database.entries|)
    ensures ok <==> && disk.section < |old(database.entries)| && old(database.entries)[disk.section] + len <= 65536
                    && len <= disk.room && disk.syncs
    ensures database.Content()
            == if ok then Placed(old(database.Content()), disk.section, heap.BytesOf(p)) else old(database.Content())
    ensures (ok ==> database.durable == database.file) && (old(database.Synced()) ==> database.Synced())
  {
    hide WellFormed, Live, InDb, Sections, SmallLens, Overwrite, Placed, StoredLength, SectionStart;
    ghost var file, entries := database.file, database.entries;
    var entry := database.ReadEntry(disk.section);
    if entry.None? || entry.value + len > SECTION_SIZE { return false; }
    var lease := new Lease();
    lease.connection, lease.index, lease.offset, lease.len := database, disk.section, entry.value, len;
    var left;
    ghost var done;
    ok, left, done := WriteBuf(heap, lease, p, disk.room);
    WrittenBehind(file, entries, disk.section, done, database.file);
    if !ok { return; }
    ok := database.Sync(disk.syncs);
    if !ok { return; }
    database.WriteEntry(disk.section, StoredLength(lease.offset));
  }

  lemma FramesBelow(h: Heap, rank: Rank, frames: seq<Option<Ptr>>)
    requires frames != [] && FramesOk(h, rank, frames)
    ensures FramesOk(h, rank, frames[..|frames| - 1])
    ensures FrameBytes(h, rank, frames)
            == FrameBytes(h, rank, frames[..|frames| - 1]) + [LiveRest(h, rank, frames[|frames| - 1])]
    ensures frames[|frames| - 1].Some? ==> FrameOk(h, rank, frames[|frames| - 1].value)
  {
    assert frames == frames[..|frames| - 1] + [frames[|frames| - 1]];
    FramesPush(h, rank, frames[..|frames| - 1], frames[|frames| - 1]);
  }

  lemma SplitFrames(h: Heap, rank: Rank, frames: seq<Option<Ptr>>)
    requires frames != []
    ensures var n, all := |frames|, FrameBytes(h, rank, frames);
            n > 1 ==>
              && all == FrameBytes(h, rank, frames[..n - 2])
                        + [LiveRest(h, rank, frames[n - 2])] + [LiveRest(h, rank, frames[n - 1])]
              && FrameBytes(h, rank, frames[..n - 2] + [frames[n - 1]])
                 == FrameBytes(h, rank, frames[..n - 2]) + [LiveRest(h, rank, frames[n - 1])]
  {
    var n := |frames|;
    if n > 1 {
      assert frames == frames[..n - 2] + [frames[n - 2]] + [frames[n - 1]];
      FramesPush(h, rank, frames[..n - 2], frames[n - 2]);
      FramesPush(h, rank, frames[..n - 2] + [frames[n - 2]], frames[n - 1]);
      FramesPush(h, rank, frames[..n - 2], frames[n - 1]);
    }
  }

  lemma NoFrames(h: Heap, rank: Rank)
    ensures FramesOk(h, rank, [])
  {
  }

  lemma MergedView(s: Scripts.Txns, below: seq<seq<byte>>, outer: seq<byte>, top: seq<byte>)
    requires s.frames == below + [outer] + [top] && top != []
    ensures Scripts.Top(s) == top
    ensures Scripts.CommitTop(s) == Scripts.Txns(below + [outer + top], s.published)
    ensures Lost(s) == Scripts.Txns(below + [[]], s.published)
    ensures outer == [] ==> outer + top == top
  {
    assert Scripts.Outer(s) == below + [outer];
    assert s.frames[..|s.frames| - 2] == below;
  }

  lemma TopFacts(h: Heap, rank: Rank, refs: multiset<Ptr>, limit: Ptr, frames: seq<Option<Ptr>>)
    requires HeapOk(h, rank, refs, limit) && FramesOk(h, rank, frames) && frames != []
    ensures var top := frames[|frames| - 1];
            && WellFormed(h, rank) && (top.Some? ==> top.value in h.nodes)
            && LiveRest(h, rank, top) == Rest(h, rank, top) && |Rest(h, rank, top)| < U32_LIMIT
  {
    var top := frames[|frames| - 1];
    assert top.Some? ==> FrameOk(h, rank, top.value);
  }

  lemma HeadFacts(h: Heap, rank: Rank, refs: multiset<Ptr>, limit: Ptr, p: Ptr)
    requires HeapOk(h, rank, refs, limit) && p in refs
    ensures WellFormed(h, rank) && p in h.nodes && Live(h, rank, p) == Rest(h, rank, Some(p))
  {
  }

  lemma SumOfRefs(before: multiset<Ptr>, below: seq<Option<Ptr>>, outer: Ptr, inner: Ptr, merged: Option<Ptr>,
                  others: multiset<Ptr>)
    requires merged == Some(outer) || merged == None
    requires others == if merged.Some? then before else before + multiset{outer}
    ensures before + Refs(below) + multiset{outer} + multiset{inner} == others + Refs(below + [merged] + [Some(inner)])
    ensures before <= others <= before + multiset{outer}
  {
    hide Refs;
    RefsPush(below, merged);
    RefsPush(below + [merged], Some(inner));
  }

  lemma FewerHeads(h: Heap, more: multiset<Ptr>, refs: multiset<Ptr>)
    requires Heads(h, more) && refs <= more
    ensures Heads(h, refs)
  {
    forall x | x in refs ensures IsHead(h, x) { assert more[x] >= refs[x]; }
  }

  lemma Sees(refs: multiset<Ptr>, h: Heap, rank: Rank, h': Heap, rank': Rank, x: Ptr)
    requires SeesSame(refs, h, rank, h', rank') && x in refs
    ensures IsHead(h', x) && Live(h', rank', x) == Live(h, rank, x)
  {
  }

  lemma FewerSeen(more: multiset<Ptr>, refs: multiset<Ptr>, h: Heap, rank: Rank, h': Heap, rank': Rank)
    requires SeesSame(more, h, rank, h', rank') && refs <= more
    ensures SeesSame(refs, h, rank, h', rank')
  {
    forall x | x in refs ensures IsHead(h', x) && Live(h', rank', x) == Live(h, rank, x) { assert more[x] >= refs[x]; }
  }

  /** The caller's references when the put's transaction holds `buf`: the header
      if it leaks, and no longer the value if it is the transaction's. */
  function HeldAfter(others: multiset<Ptr>, value: Ptr, header: Ptr, buf: Option<Ptr>): multiset<Ptr> {
    if buf == Some(header) then others
    else (if buf.None? then others else others - multiset{value}) + multiset{header}
  }

  lemma HandedOver(h: Heap, others: multiset<Ptr>, frames: seq<Option<Ptr>>, r: Record, value: Ptr, header: Ptr,
                   buf: Option<Ptr>)
    requires Heads(h, others + multiset{header}) && value in others
    requires if RECORD_HEADER_SIZE + |r.key| >= U32_LIMIT then buf == Some(value)
             else if Encodable(r) then buf == Some(header) else buf == None
    ensures var after := HeldAfter(others, value, header, buf);
            && others + Refs(frames) + multiset{header} == after + Refs(frames + [buf]) && Heads(h, after)
            && StillHeld(others, r, value) <= after && (Encodable(r) ==> after == others)
  {
    var after := HeldAfter(others, value, header, buf);
    RefsPush(frames, buf);
    FewerHeads(h, others + multiset{header}, after);
  }

  lemma StaysPrivate(h: Heap, h': Heap, rank': Rank, p: Ptr)
    requires p in h.nodes ==> p in h'.nodes && h'.nodes[p] == h.nodes[p]
    requires Private(h, p) && |Live(h', rank', p)| < U32_LIMIT
    ensures FrameOk(h', rank', p)
  {
  }

  lemma MoreHeads(h: Heap, refs: multiset<Ptr>, p: Ptr)
    requires Heads(h, refs) && IsHead(h, p)
    ensures Heads(h, refs + multiset{p})
  {
  }

  lemma SeesThrough(refs: multiset<Ptr>, more: multiset<Ptr>, h1: Heap, rank1: Rank, h2: Heap, rank2: Rank, h3: Heap,
                    rank3: Rank)
    requires SeesSame(refs, h1, rank1, h2, rank2) && SeesSame(more, h2, rank2, h3, rank3) && refs <= more
    ensures SeesSame(refs, h1, rank1, h3, rank3)
  {
    forall x | x in refs ensures IsHead(h3, x) && Live(h3, rank3, x) == Live(h1, rank1, x) {
      assert more[x] >= refs[x];
    }
  }

  lemma TopTwo(h: Heap, rank: Rank, handles: multiset<Ptr>, lost: multiset<Ptr>, limit: Ptr, frames: seq<Option<Ptr>>,
               others: multiset<Ptr>)
    requires HeapOk(h, rank, handles + lost, limit) && FramesOk(h, rank, frames) && handles == others + Refs(frames)
    requires |frames| >= 2 && frames[|frames| - 2].Some? && frames[|frames| - 1].Some?
    ensures var below, outer, inner := frames[..|frames| - 2], frames[|frames| - 2].value, frames[|frames| - 1].value;
            && handles == others + Refs(below) + multiset{outer} + multiset{inner}
            && others + multiset{outer} <= handles && Refs(below) + multiset{outer} + multiset{inner} <= handles
            && outer != inner && FramesOk(h, rank, below) && FrameOk(h, rank, outer)
            && IsHead(h, inner) && |Live(h, rank, inner)| < U32_LIMIT
  {
    hide HeapOk, Live, Refs, FramesOk, Private;
    var below, outer, inner := frames[..|frames| - 2], frames[|frames| - 2], frames[|frames| - 1];
    assert frames == (below + [outer]) + [inner];
    FramesPush(h, rank, below, outer);
    FramesPush(h, rank, below + [outer], inner);
    InnerIsAlone(h, rank, handles + lost, limit, outer.value, inner.value);
  }

  lemma InnerIsAlone(h: Heap, rank: Rank, refs: multiset<Ptr>, limit: Ptr, outer: Ptr, inner: Ptr)
    requires HeapOk(h, rank, refs, limit) && FrameOk(h, rank, inner)
    requires multiset{outer} + multiset{inner} <= refs
    ensures outer != inner && IsHead(h, inner) && |Live(h, rank, inner)| < U32_LIMIT
  {
    TopIsAlone(h, rank, refs, limit, multiset{outer}, inner);
  }

  lemma SeesItself(h: Heap, rank: Rank, refs: multiset<Ptr>)
    requires Heads(h, refs)
    ensures SeesSame(refs, h, rank, h, rank)
  {
  }

  /** What the code does when a nested transaction commits: the buffer goes to
      the outer transaction and is then given back. The outer transaction is left
      with a dangling pointer exactly when it had no buffer of its own. */
  method MergeAsWritten(heap: BufferHeap, outer: Option<Ptr>, inner: Ptr) returns (merged: Option<Ptr>)
    requires heap.Valid() && inner in heap.handles && Private(heap.Here(), inner)
    requires outer.Some? ==> outer.value in heap.handles && Private(heap.Here(), outer.value) && outer.value != inner
    modifies heap
    ensures heap.Valid() && heap.handles == old(heap.handles) - multiset{inner}
    ensures merged.Some? && merged.value !in heap.nodes <==> outer.None?
  {
    hide HeapOk, Live;
    ghost var h, rank, refs, limit := heap.Here(), heap.rank, heap.handles + heap.lost, heap.limit;
    if outer.Some? { PrivateUnreached(h, rank, refs, limit, outer.value); }
    merged := heap.Append(outer, inner);
    LimitIsFree(h, rank, refs, limit);
    assert heap.nodes[inner].refcnt == 1 <==> outer.None? || merged.None?;
    heap.Free(inner);
    if outer.Some? { HandleIsLive(heap.Here(), heap.rank, heap.handles + heap.lost, heap.limit, outer.value); }
  }

  lemma HandleIsLive(h: Heap, rank: Rank, refs: multiset<Ptr>, limit: Ptr, p: Ptr)
    requires HeapOk(h, rank, refs, limit) && p in refs
    ensures p in h.nodes
  {
  }
}
