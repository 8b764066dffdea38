// `logdb_txn_write_buf`: a rope written through a lease, segment by segment.
module WriteBuffer {
  import opened Bytes
  import opened Layout
  import opened FileFormat
  import opened Rope
  import opened RopeOps
  import opened Buffers
  import opened Leases

  lemma OverwriteNothing(file: seq<byte>, at: nat)
    ensures Overwrite(file, at, []) == file
  {
  }

  /** Two adjacent writes are one. */
  lemma OverwriteConcat(file: seq<byte>, at: nat, a: seq<byte>, b: seq<byte>)
    ensures Overwrite(Overwrite(file, at, a), at + |a|, b) == Overwrite(file, at, a + b)
  {
    if a == [] {
      assert a + b == b;
    } else if b == [] {
      assert a + b == a;
    } else {
      var first := Overwrite(file, at, a);
      var once, twice := Overwrite(file, at, a + b), Overwrite(first, at + |a|, b);
      assert |once| == |twice|;
      forall k | 0 <= k < |once| ensures twice[k] == once[k] { SameByte(file, at, a, b, k); }
      assert twice == once;
    }
  }

  lemma SameByte(file: seq<byte>, at: nat, a: seq<byte>, b: seq<byte>, k: nat)
    requires a != [] && b != [] && k < |Overwrite(file, at, a + b)|
    ensures k < |Overwrite(Overwrite(file, at, a), at + |a|, b)|
    ensures Overwrite(Overwrite(file, at, a), at + |a|, b)[k] == Overwrite(file, at, a + b)[k]
  {
    hide Overwrite;
    var first := Overwrite(file, at, a);
    assert |Overwrite(first, at + |a|, b)| == |Overwrite(file, at, a + b)|;
    OverwriteByte(file, at, a + b, k);
    OverwriteByte(first, at + |a|, b, k);
    if k < |first| { OverwriteByte(file, at, a, k); }
    if at <= k < at + |a| {
      assert (a + b)[k - at] == a[k - at];
    } else if at + |a| <= k < at + |a| + |b| {
      assert (a + b)[k - at] == b[k - at - |a|];
    }
  }

  lemma OverwriteByte(file: seq<byte>, at: nat, data: seq<byte>, k: nat)
    requires k < |Overwrite(file, at, data)|
    ensures Overwrite(file, at, data)[k]
            == if at <= k < at + |data| then data[k - at] else if k < |file| then file[k] else 0
  {
    if at <= k < at + |data| { assert Overwrite(file, at, data)[at..at + |data|][k - at] == data[k - at]; }
  }

  ghost function SegmentAt(h: Heap, rank: Rank, n: Node): seq<byte> {
    if n.orig.Some? then Live(h, rank, n.orig.value)
    else if OwnBytesLive(h, n) then h.blocks[n.data][..n.len] else []
  }

  lemma Split(done: seq<byte>, segment: seq<byte>, rest: seq<byte>, all: seq<byte>)
    requires done + (segment + rest) == all
    ensures done + segment + rest == all && |done| + |segment| <= |all|
    ensures forall part :: part <= segment ==> done + part <= all
  {
    assert done + segment + rest == all;
    forall part | part <= segment ensures done + part <= all {
      assert segment == part + segment[|part|..];
      assert done + part + (segment[|part|..] + rest) == all;
    }
  }

  lemma RestOf(h: Heap, rank: Rank, p: Ptr)
    requires WellFormed(h, rank) && p in h.nodes
    ensures var n := h.nodes[p];
            && p in rank
            && (n.next.Some? ==> Below(h, rank, n.next.value, p))
            && (n.orig.Some? ==> Below(h, rank, n.orig.value, p))
            && (n.orig.None? ==> n.data in h.blocks && n.len <= |h.blocks[n.data]|)
            && Live(h, rank, p) == SegmentAt(h, rank, n) + LiveRest(h, rank, n.next)
  {
    ContentOfNode(h, rank, p);
    assert h.nodes[p].orig.None? ==> OwnBytesLive(h, h.nodes[p]);
  }

  /** How a lease and its file look after `done` was written through it. */
  datatype Progress = Progress(file: seq<byte>, offset: nat, len: nat)

  predicate Through(before: Progress, after: Progress, index: nat, done: seq<byte>) {
    && after.offset == before.offset + |done| && after.len + |done| == before.len
    && after.file == Overwrite(before.file, SectionStart(index) + before.offset, done)
  }

  function Now(lease: Lease): Progress
    requires lease.connection != null
    reads lease, lease.connection
  {
    Progress(lease.connection.file, lease.offset, lease.len)
  }

  lemma ThroughBoth(a: Progress, b: Progress, c: Progress, index: nat, x: seq<byte>, y: seq<byte>)
    requires Through(a, b, index, x) && Through(b, c, index, y)
    ensures Through(a, c, index, x + y)
  {
    hide Overwrite, SectionStart;
    OverwriteConcat(a.file, SectionStart(index) + a.offset, x, y);
  }

  /** Writes exactly the content of the rope, or fails after a prefix of it when
      the lease or the disk is too small; `room` is what the disk still takes. */
  method WriteBuf(heap: BufferHeap, lease: Lease, p: Ptr, room: nat)
    returns (ok: bool, left: nat, ghost done: seq<byte>)
    requires WellFormed(heap.Here(), heap.rank) && p in heap.nodes
    requires lease.connection != null && lease.index < MAX_SECTIONS
    modifies lease`offset, lease`len, lease.connection`file
    ensures ok <==> |heap.BytesOf(p)| <= old(lease.len) && |heap.BytesOf(p)| <= room
    ensures done <= heap.BytesOf(p) && (ok ==> done == heap.BytesOf(p) && left == room - |done|)
    ensures Through(old(Now(lease)), Now(lease), lease.index, done)
    decreases heap.rank[p]
  {
    hide WellFormed, Live, Through, Overwrite;
    ghost var h, rank, before := heap.Here(), heap.rank, Now(lease);
    done, left, ok := [], room, true;
    var buf := Some(p);
    RestOf(h, rank, p);
    NothingThrough(before, lease.index);
    while buf.Some?
      invariant ok && (buf.Some? ==> buf.value in h.nodes && buf.value in rank && rank[buf.value] <= rank[p])
      invariant done + LiveRest(h, rank, buf) == Live(h, rank, p)
      invariant Through(before, Now(lease), lease.index, done) && left == room - |done|
      decreases if buf.Some? then rank[buf.value] + 1 else 0
    {
      var n := heap.nodes[buf.value];
      RestOf(h, rank, buf.value);
      ghost var middle, part, segment := Now(lease), [], SegmentAt(h, rank, n);
      ThroughSize(before, middle, lease.index, done);
      Split(done, segment, LiveRest(h, rank, n.next), Live(h, rank, p));
      if n.orig.Some? {
        ok, left, part := WriteBuf(heap, lease, n.orig.value, left);
      } else {
        ok, left, part := WriteSegment(lease, heap.blocks[n.data][..n.len], left);
      }
      ThroughBoth(before, middle, Now(lease), lease.index, done, part);
      done := done + part;
      if !ok { return; }
      buf := n.next;
    }
    ThroughSize(before, Now(lease), lease.index, done);
    assert done + [] == done;
  }

  /** One call of `logdb_lease_write`. */
  method WriteSegment(lease: Lease, data: seq<byte>, room: nat) returns (ok: bool, left: nat, ghost part: seq<byte>)
    requires lease.connection != null && lease.index < MAX_SECTIONS
    modifies lease`offset, lease`len, lease.connection`file
    ensures ok <==> |data| <= old(lease.len) && |data| <= room
    ensures part <= data && (ok ==> part == data && left == room - |data|)
    ensures Through(old(Now(lease)), Now(lease), lease.index, part)
  {
    hide Overwrite, SectionStart;
    OverwriteNothing(lease.connection.file, SectionStart(lease.index) + lease.offset);
    part := if |data| > lease.len then [] else data[..if room < |data| then room else |data|];
    var notWritten := lease.Write(data, room);
    ok, left := notWritten == 0, if notWritten == 0 && |data| <= room then room - |data| else 0;
    assert data[..|data|] == data;
  }

  lemma NothingThrough(before: Progress, index: nat)
    ensures Through(before, before, index, [])
  {
    OverwriteNothing(before.file, SectionStart(index) + before.offset);
  }

  lemma ThroughSize(a: Progress, b: Progress, index: nat, x: seq<byte>)
    requires Through(a, b, index, x)
    ensures b.len + |x| == a.len
  {
  }
}
