// logdb_buffer.c: the operations on the rope heap, updating it in place.
module Buffers {
  import opened Bytes
  import opened Layout
  import opened Rope
  import opened RopeCounts
  import opened RopeOps

  class BufferHeap {
    var nodes: map<Ptr, Node>
    var blocks: map<Ptr, seq<byte>>
    var limit: Ptr                    // allocation bound: every pointer in use is below it
    ghost var rank: Rank              // witness that there is no cycle
    ghost var handles: multiset<Ptr>  // references held by callers
    ghost var lost: multiset<Ptr>     // references dropped by flattening
    ghost var given: set<Ptr>         // blocks that callers provided and still own

    ghost function Here(): Heap
      reads this
    {
      Heap(nodes, blocks)
    }

    /** Reference counts are exact, links lead to live nodes, data blocks have one
        owner: a live node, or the caller who provided the block. */
    ghost predicate Valid()
      reads this
    {
      HeapOk(Here(), rank, handles + lost, limit) && Conserved(Here(), given)
    }

    /** The bytes a buffer stands for. */
    ghost function BytesOf(p: Ptr): seq<byte>
      reads this
    {
      Live(Here(), rank, p)
    }

    constructor ()
      ensures Valid() && nodes == map[] && blocks == map[] && handles == multiset{} && lost == multiset{}
      ensures given == {}
    {
      nodes, blocks, limit := map[], map[], 0;
      rank, handles, lost, given := map[], multiset{}, multiset{}, {};
    }

    /** The caller's own memory, for `NewDirect` to point at. */
    method UserBlock(bytes: seq<byte>) returns (block: Ptr)
      requires Valid()
      modifies this
      ensures Valid() && SameContents(old(Here()), old(rank), Here(), rank)
      ensures block !in old(blocks) && blocks == old(blocks)[block := bytes] && nodes == old(nodes)
      ensures handles == old(handles) && lost == old(lost) && given == old(given) + {block} && block !in old(given)
      ensures forall p :: IsHead(Here(), p) ==> nodes[p].data != block
    {
      block := limit;
      WithBlockOk(Here(), rank, handles + lost, limit, bytes);
      WithBlockConserved(Here(), given, limit, bytes);
      given := given + {block};
      forall p | IsHead(Here(), p) ensures nodes[p].data != block { assert OwnBytesLive(Here(), nodes[p]); }
      blocks, limit := blocks[block := bytes], limit + 1;
    }

    /** `logdb_buffer_new_direct`: a buffer over memory that the caller provides. */
    method NewDirect(block: Ptr, len: nat, owned: bool) returns (p: Ptr)
      requires Valid() && Available(Here(), block, len, owned)
      modifies this
      ensures Valid() && SameContents(old(Here()), old(rank), Here(), rank)
      ensures p !in old(nodes) && nodes == old(nodes)[p := Node(block, len, owned, None, None, 1)]
      ensures blocks == old(blocks) && handles == old(handles) + multiset{p} && lost == old(lost)
      ensures given == (if owned then old(given) - {block} else old(given)) && (owned ==> block in old(given))
      ensures BytesOf(p) == blocks[block][..len]
    {
      p := limit;
      OwnerFacts(Here(), rank, handles + lost, limit);
      WithHeadConserved(Here(), given, limit, block, len, owned);
      NoOwnerYet(Here(), given, block, len, owned);
      if owned { given := given - {block}; }
      WithHeadOk(Here(), rank, handles + lost, limit, block, len, owned);
      assert handles + multiset{p} + lost == handles + lost + multiset{p};
      nodes, limit := nodes[p := Node(block, len, owned, None, None, 1)], limit + 1;
      rank, handles := rank[p := 0], handles + multiset{p};
    }

    /** `logdb_buffer_new_copy`: a buffer with a block of its own. */
    method NewCopy(bytes: seq<byte>) returns (p: Ptr)
      requires Valid()
      modifies this
      ensures Valid() && SameContents(old(Here()), old(rank), Here(), rank)
      ensures p !in old(nodes) && IsHead(Here(), p) && nodes.Keys == old(nodes.Keys) + {p}
      ensures forall x :: x in old(nodes) ==> nodes[x] == old(nodes)[x]
      ensures nodes[p].orig.None? && nodes[p].next.None? && nodes[p].refcnt == 1
      ensures handles == old(handles) + multiset{p} && lost == old(lost) && given == old(given)
      ensures nodes[p].owned && nodes[p].data !in old(blocks) && blocks == old(blocks)[nodes[p].data := bytes]
      ensures BytesOf(p) == bytes
    {
      hide HeapOk, WellFormed, Live, Conserved;
      var block := UserBlock(bytes);
      p := NewDirect(block, |bytes|, true);
    }

    /** `logdb_buffer_length`: unsigned 32-bit additions. */
    method Length(p: Option<Ptr>) returns (len: nat)
      requires WellFormed(Here(), rank) && (p.Some? ==> p.value in nodes)
      ensures len == |Rest(Here(), rank, p)| % U32_LIMIT
      decreases if p.Some? then rank[p.value] + 1 else 0
    {
      len := 0;
      var buf := p;
      ghost var h, total := Here(), 0;
      while buf.Some?
        invariant buf.Some? ==> p.Some? && buf.value in nodes && rank[buf.value] <= rank[p.value]
        invariant 0 <= total && len == total % U32_LIMIT && total + |Rest(h, rank, buf)| == |Rest(h, rank, p)|
        decreases if buf.Some? then rank[buf.value] + 1 else 0
      {
        var n := nodes[buf.value];
        ghost var size := |Segment(h, rank, buf.value)|;
        assert size + |Rest(h, rank, n.next)| == |Rest(h, rank, buf)|;
        if n.orig.Some? {
          assert Below(h, rank, n.orig.value, buf.value);
          var segment := Length(n.orig);
          len := AddU32(len, segment);
        } else {
          assert size == n.len by { assert OwnBytesLive(h, n); }
          len := AddU32(len, n.len);
        }
        AddModulo(total, size);
        total := total + size;
        assert n.next.Some? ==> Below(h, rank, n.next.value, buf.value);
        buf := n.next;
      }
    }

    /** `logdb_buffer_retain`. */
    method Retain(p: Ptr)
      requires Valid() && p in nodes
      modifies this
      ensures Valid() && SameContents(old(Here()), old(rank), Here(), rank)
      ensures nodes == old(nodes)[p := old(nodes[p]).(refcnt := old(nodes[p].refcnt) + 1)]
      ensures blocks == old(blocks) && handles == old(handles) + multiset{p} && lost == old(lost) && rank == old(rank)
      ensures given == old(given)
    {
      hide HeapOk, SameContents, Conserved;
      SameOwnersConserved(Here(), WithCount(Here(), p, nodes[p].refcnt + 1), given);
      NodeFacts(Here(), rank, handles + lost, limit, p);
      WithCountOk(Here(), rank, handles + lost, limit, p, nodes[p].refcnt + 1, handles + multiset{p} + lost);
      nodes := nodes[p := nodes[p].(refcnt := nodes[p].refcnt + 1)];
      handles := handles + multiset{p};
    }

    /** The walk of `logdb_buffer_append` to the end of the chain. Segments after
        the first are copies, so the code's comparison with the other buffer
        never fires. */
    method LastSegment(p: Ptr, other: Ptr) returns (last: Ptr)
      requires WellFormed(Here(), rank) && IsHead(Here(), p) && IsHead(Here(), other)
      ensures last in nodes && nodes[last].next.None? && last == Tail(Here(), rank, p)
    {
      last := p;
      while nodes[last].next.Some?
        invariant last in nodes && Tail(Here(), rank, last) == Tail(Here(), rank, p)
        decreases rank[last]
      {
        assert Below(Here(), rank, nodes[last].next.value, last) && IsCopy(Here(), nodes[last].next.value);
        last := nodes[last].next.value;
        assert last != other;
      }
    }

    /** Chains a private copy of `b2` behind segment `last`. */
    method Link(last: Ptr, b2: Ptr)
      requires Valid() && last in nodes && nodes[last].next.None? && IsHead(Here(), b2)
      requires !Leads(Here(), rank, b2, last)
      modifies this
      ensures Valid() && handles == old(handles) && lost == old(lost) && blocks == old(blocks) && given == old(given)
      ensures Here() == Appended(old(Here()), last, b2, old(limit))
      ensures rank == AppendRank(old(Here()), old(rank), last, b2, old(limit))
    {
      hide HeapOk, WellFormed, Conserved, AppendRank;
      AppendAll(Here(), rank, handles + lost, limit, last, b2, given);
      rank := AppendRank(Here(), rank, last, b2, limit);
      nodes := nodes[b2 := nodes[b2].(refcnt := nodes[b2].refcnt + 1)]
                    [limit := Node(nodes[b2].data, nodes[b2].len, false, Some(b2), None, 1)];
      nodes := nodes[last := nodes[last].(next := Some(limit))];
      limit := limit + 1;
    }

    /** `logdb_buffer_append`. `None` stands for NULL. The second buffer must
        not lead to the first: see `AppendIsAcyclicExactly`. */
    method Append(b1: Option<Ptr>, b2: Ptr) returns (r: Option<Ptr>)
      requires Valid() && IsHead(Here(), b2)
      requires b1.Some? ==> IsHead(Here(), b1.value) && !Leads(Here(), rank, b2, b1.value)
      modifies this
      ensures Valid() && handles == old(handles) && lost == old(lost) && blocks == old(blocks) && given == old(given)
      ensures b1.None? ==> r == Some(b2) && nodes == old(nodes) && rank == old(rank)
      ensures b1.Some? ==>
                (r.None? <==> |old(BytesOf(b1.value))| % U32_LIMIT + |old(BytesOf(b2))| % U32_LIMIT >= U32_LIMIT)
      ensures r.None? ==> nodes == old(nodes) && rank == old(rank)
      ensures r.Some? && b1.Some? ==>
                && r == b1
                && BytesOf(b1.value) == old(BytesOf(b1.value)) + old(BytesOf(b2))
                && Here() == Appended(old(Here()), old(LastOf(Here(), rank, b1.value)), b2, old(limit))
                && AllGrown(old(Here()), old(rank), old(LastOf(Here(), rank, b1.value)), old(BytesOf(b2)), Here(), rank)
                && (forall x :: IsHead(old(Here()), x) && !Leads(old(Here()), old(rank), x, b1.value)
                      ==> BytesOf(x) == old(BytesOf(x)))
    {
      hide HeapOk, WellFormed, AllGrown, Conserved;
      if b1.None? { return Some(b2); }
      NodeFacts(Here(), rank, handles + lost, limit, b2);
      var len1 := Length(b1);
      var len2 := Length(Some(b2));
      if U32_LIMIT - 1 - len1 < len2 { return None; }
      var last := LastSegment(b1.value, b2);
      ghost var h0, rank0 := Here(), rank;
      ToTail(h0, rank, b1.value, b2);
      assert last == LastOf(h0, rank, b1.value);
      Link(last, b2);
      AppendAllGrown(h0, rank0, handles + lost, old(limit), b1.value, b2, Here(), rank);
      AppendSeen(h0, rank0, handles + lost, old(limit), b1.value, last, b2, Here(), rank);
      r := b1;
    }

    /** One segment of the loop in `logdb_buffer_data`. */
    method SegmentBytes(cur: Ptr) returns (bytes: seq<byte>)
      requires Valid() && cur in nodes && |BytesOf(cur)| < U32_LIMIT
      modifies this
      ensures Valid() && rank == old(rank) && handles == old(handles) && given == old(given)
      ensures SameContents(old(Here()), rank, Here(), rank)
      ensures Steady(old(Here()), Here(), rank, rank[cur])
      ensures bytes + LiveRest(old(Here()), rank, old(nodes[cur]).next) == old(BytesOf(cur))
      decreases rank[cur], 0
    {
      hide HeapOk, WellFormed, SameContents, Steady, Conserved;
      NodeFacts(Here(), rank, handles + lost, limit, cur);
      ContentOfNode(Here(), rank, cur);
      var c := nodes[cur];
      if c.orig.Some? {
        ghost var h := Here();
        var len := Length(c.orig);
        var data := Data(c.orig.value);
        bytes := blocks[data][..len];
        SteadyWider(h, Here(), rank, rank[c.orig.value] + 1, rank[cur]);
      } else {
        bytes := blocks[c.data][..c.len];
        Unchanged(Here(), rank, rank[cur]);
      }
    }

    /** The copying loop of `logdb_buffer_data`. */
    method Gather(p: Ptr) returns (bytes: seq<byte>)
      requires Valid() && IsHead(Here(), p) && |BytesOf(p)| < U32_LIMIT
      modifies this
      ensures Valid() && rank == old(rank) && handles == old(handles) && given == old(given)
      ensures SameContents(old(Here()), rank, Here(), rank)
      ensures Steady(old(Here()), Here(), rank, rank[p])
      ensures bytes == old(BytesOf(p))
      decreases rank[p], 1
    {
      ghost var h0 := Here();
      hide HeapOk, WellFormed, SameContents, Steady, Conserved;
      NodeFacts(h0, rank, handles + lost, limit, p);
      Unchanged(h0, rank, rank[p]);
      bytes := [];
      var cur := Some(p);
      while cur.Some?
        invariant Valid() && rank == old(rank) && handles == old(handles) && given == old(given)
        invariant SameContents(h0, rank, Here(), rank) && Steady(h0, Here(), rank, rank[p])
        invariant cur.Some? ==> OnChain(h0, Here(), rank, p, cur.value)
        invariant bytes + LiveRest(h0, rank, cur) == Live(h0, rank, p)
        decreases if cur.Some? then rank[cur.value] + 1 else 0
      {
        ghost var h1 := Here();
        LiveSame(h0, rank, h1, cur);
        assert |Live(h1, rank, cur.value)| <= |Live(h0, rank, p)|;
        var segment := SegmentBytes(cur.value);
        ChainStep(h0, h1, Here(), rank, p, cur.value);
        assert bytes + (segment + LiveRest(h0, rank, nodes[cur.value].next)) == Live(h0, rank, p);
        bytes := bytes + segment;
        cur := nodes[cur.value].next;
      }
    }

    /** `logdb_buffer_data`: the bytes in one block, flattening in place the
        buffers on the way. No buffer's content changes. The block is the data of
        the head that was asked, or of the one it is a copy of, which is one segment
        then; nothing happens if it was already. */
    method Data(p: Ptr) returns (block: Ptr)
      requires Valid() && p in nodes && (nodes[p].orig.Some? ==> nodes[p].next.None?)
      requires |BytesOf(p)| < U32_LIMIT  // the length is computed in 32 bits
      modifies this
      ensures Valid() && rank == old(rank) && handles == old(handles) && given == old(given)
      ensures SameContents(old(Here()), rank, Here(), rank)
      ensures Steady(old(Here()), Here(), rank, rank[p] + 1)
      ensures block in blocks && |old(BytesOf(p))| <= |blocks[block]|
      ensures blocks[block][..|old(BytesOf(p))|] == old(BytesOf(p))
      ensures var q := DataHead(old(Here()), p);
              && IsHead(old(Here()), q) && IsHead(Here(), q) && nodes[q].next.None? && nodes[q].data == block
              && nodes[q].len == |old(BytesOf(p))|
              && (if old(nodes)[q].next.None? then Here() == old(Here())
                  else nodes[q].owned && blocks[block] == old(BytesOf(p)))
      decreases rank[p], 2
    {
      hide HeapOk, WellFormed, SameContents, Steady, Conserved;
      NodeFacts(Here(), rank, handles + lost, limit, p);
      ContentOfNode(Here(), rank, p);
      var n := nodes[p];
      if n.orig.Some? {
        ghost var h := Here();
        block := Data(n.orig.value);
        SteadyWider(h, Here(), rank, rank[n.orig.value] + 1, rank[p] + 1);
      } else if n.next.Some? {
        ghost var h := Here();
        var newlen := Length(Some(p));
        var bytes := Gather(p);
        ghost var h1 := Here();
        GatherDone(h, h1, rank, p);
        block := Replace(p, bytes, newlen);
        SteadyTransitive(h, h1, Here(), rank, rank[p], rank[p] + 1, rank[p] + 1);
        SameContentsTransitive(h, rank, h1, rank, Here(), rank);
      } else {
        block := n.data;
        Unchanged(Here(), rank, rank[p] + 1);
      }
    }

    /** The end of `logdb_buffer_data`: the old data is disposed of, the chain is
        dropped but not freed. */
    method Replace(p: Ptr, bytes: seq<byte>, newlen: nat) returns (block: Ptr)
      requires Valid() && IsHead(Here(), p) && nodes[p].next.Some? && bytes == BytesOf(p) && newlen == |bytes|
      modifies this
      ensures Valid() && rank == old(rank) && handles == old(handles) && given == old(given)
      ensures lost == old(lost) + multiset{old(nodes[p]).next.value}
      ensures SameContents(old(Here()), rank, Here(), rank) && Steady(old(Here()), Here(), rank, rank[p] + 1)
      ensures block in blocks && blocks[block] == bytes && block == old(limit) && block !in old(blocks)
      ensures nodes == old(nodes)[p := old(nodes[p]).(data := block, len := newlen, owned := true, next := None)]
    {
      ghost var h := Here();
      hide HeapOk, WellFormed, SameContents, Steady, Conserved, Live, CountOf;
      NodeFacts(h, rank, handles + lost, limit, p);
      FlattenAll(h, rank, handles + lost, limit, p, given, bytes);
      var n := nodes[p];
      block := limit;
      assert handles + lost + multiset{n.next.value} == handles + (lost + multiset{n.next.value});
      lost := lost + multiset{n.next.value};
      if n.owned { blocks := blocks - {n.data}; }
      blocks := blocks[block := bytes];
      nodes := nodes[p := n.(data := block, len := newlen, owned := true, next := None)];
      limit := limit + 1;
    }

    /** The count of `p` goes from 1 to 0: dispose of its data, free the node,
        and owe a reference to each node it linked to. */
    method Drop(p: Ptr)
      requires Valid() && p in handles && nodes[p].refcnt == 1
      modifies this
      ensures Valid() && rank == old(rank) && lost == old(lost) && given == old(given)
      ensures Here() == Removed(old(Here()), p)
      ensures old(nodes[p]).owned ==> old(nodes[p]).data in old(blocks) && old(nodes[p]).data !in blocks
      ensures handles == old(handles) - multiset{p} + LinksOf(old(nodes[p]))
      ensures SameContents(Here(), rank, old(Here()), rank) && Survivors(Here(), old(Here()))
      ensures old(nodes[p]).orig.Some? ==> Below(old(Here()), rank, old(nodes[p]).orig.value, p)
      ensures old(nodes[p]).next.Some? ==> Below(old(Here()), rank, old(nodes[p]).next.value, p)
    {
      hide HeapOk, WellFormed, SameContents, Survivors, LinksOf, CountOf, Conserved;
      ghost var h, refs := Here(), handles + lost;
      OwnerFacts(h, rank, refs, limit);
      NodeFacts(h, rank, refs, limit, p);
      RemoveConserved(h, given, p);
      var n := nodes[p];
      RemoveOk(h, rank, refs, limit, p);
      assert refs - multiset{p} + LinksOf(n) == handles - multiset{p} + LinksOf(n) + lost;
      if n.owned {
        assert n.data in blocks;  // not disposed of before
        blocks := blocks - {n.data};
      }
      nodes, handles := nodes - {p}, handles - multiset{p} + LinksOf(n);
    }

    method Decrement(p: Ptr)
      requires Valid() && p in handles && nodes[p].refcnt > 1
      modifies this
      ensures Valid() && rank == old(rank) && lost == old(lost) && blocks == old(blocks) && given == old(given)
      ensures nodes == old(nodes)[p := old(nodes[p]).(refcnt := old(nodes[p].refcnt) - 1)]
      ensures handles == old(handles) - multiset{p}
      ensures SameContents(Here(), rank, old(Here()), rank)
    {
      hide HeapOk, SameContents, Conserved;
      ghost var h := Here();
      NodeFacts(h, rank, handles + lost, limit, p);
      SameOwnersConserved(h, WithCount(h, p, nodes[p].refcnt - 1), given);
      WithCountOk(h, rank, handles + lost, limit, p, nodes[p].refcnt - 1, handles - multiset{p} + lost);
      SameContentsBack(h, rank, WithCount(h, p, nodes[p].refcnt - 1), rank);
      nodes := nodes[p := nodes[p].(refcnt := nodes[p].refcnt - 1)];
      handles := handles - multiset{p};
    }

    /** `logdb_buffer_free`: gives one reference back; a node without references
        is disposed of together with the references it holds itself. Of the blocks
        exactly those go that a node that goes owned. */
    method Free(p: Ptr)
      requires Valid() && p in handles
      modifies this
      ensures Valid() && rank == old(rank) && lost == old(lost) && handles == old(handles) - multiset{p}
      ensures SameContents(Here(), rank, old(Here()), rank)
      ensures Survivors(Here(), old(Here())) && Kept(Here(), old(Here()), given) && given == old(given)
      ensures nodes.Keys <= old(nodes.Keys) && (old(nodes[p].refcnt) > 1 <==> p in nodes)
      decreases rank[p], 1
    {
      hide HeapOk, SameContents, Conserved, Kept;
      NodeFacts(Here(), rank, handles + lost, limit, p);
      if nodes[p].refcnt > 1 {
        ghost var h := Here();
        Decrement(p);
        KeptIs(Here(), h, given);
      } else {
        FreeLast(p);
      }
    }

    method FreeLast(p: Ptr)
      requires Valid() && p in handles && nodes[p].refcnt == 1
      modifies this
      ensures Valid() && rank == old(rank) && lost == old(lost) && handles == old(handles) - multiset{p}
      ensures SameContents(Here(), rank, old(Here()), rank)
      ensures Survivors(Here(), old(Here())) && Kept(Here(), old(Here()), given) && given == old(given)
      ensures p !in nodes && nodes.Keys <= old(nodes.Keys)
      decreases rank[p], 0
    {
      hide HeapOk, SameContents, Survivors, LinksOf, Conserved, Kept;
      NodeFacts(Here(), rank, handles + lost, limit, p);
      var n := nodes[p];
      ghost var h0 := Here();
      Drop(p);
      ghost var h1 := Here();
      KeptIs(h1, h0, given);
      OwedLinks(old(handles), p, n);
      if n.orig.Some? {
        Free(n.orig.value);
        SameContentsTransitive(Here(), rank, h1, rank, h0, rank);
        SurvivorsTransitive(Here(), h1, h0);
        KeptTransitive(Here(), h1, h0, given);
      }
      ghost var h2 := Here();
      if n.next.Some? {
        Free(n.next.value);
        SameContentsTransitive(Here(), rank, h2, rank, h0, rank);
        SurvivorsTransitive(Here(), h2, h0);
        KeptTransitive(Here(), h2, h0, given);
      }
    }
  }

  const QUARTER := 0x4000_0000

  /** A buffer of 3 * 2^30 bytes that shares its last 2^30 with another one. */
  method SharingPair() returns (heap: BufferHeap, x: Ptr, shared: Ptr, ghost c: Ptr)
    ensures heap.Valid() && x in heap.handles && shared in heap.handles && x != shared
    ensures IsHead(heap.Here(), x) && heap.nodes[x].next == Some(c)
    ensures c in heap.nodes && heap.nodes[c].orig == Some(shared) && heap.nodes[c].next.None?
    ensures IsHead(heap.Here(), shared) && heap.nodes[shared].next.None?
    ensures |heap.BytesOf(x)| == 3 * QUARTER && |heap.BytesOf(shared)| == QUARTER
    ensures fresh(heap)
  {
    hide HeapOk, WellFormed, Live, SameContents, AllGrown, Leads, LastOf, Grown, Conserved;
    heap := new BufferHeap();
    shared := heap.NewCopy(Zeros(QUARTER));
    ghost var h0, rank0 := heap.Here(), heap.rank;
    x := heap.NewCopy(Zeros(2 * QUARTER));
    ghost var h, rank := heap.Here(), heap.rank;
    c := heap.limit;
    StaysLive(h0, rank0, h, rank, shared);
    NodeFacts(h, rank, heap.handles + heap.lost, c, x);
    SingleSegment(h, rank, x, shared);
    SingleSegment(h, rank, shared, x);
    var r := heap.Append(Some(x), shared);
  }

  /** The code checks the lengths of the two buffers it is given. A third one that
      shares the first can pass 32 bits all the same: then `logdb_buffer_length`
      calls it empty, and `logdb_buffer_data` would copy 2^32 bytes into a block of
      that size. */
  method SharedBufferOverflows() returns (heap: BufferHeap, x: Ptr, len: nat)
    ensures heap.Valid() && IsHead(heap.Here(), x) && heap.nodes[x].next.Some?
    ensures |heap.BytesOf(x)| == U32_LIMIT && len == 0
  {
    hide HeapOk, WellFormed, Live, SameContents, AllGrown, Leads, LastOf, Grown, Conserved;
    var shared;
    ghost var c;
    heap, x, shared, c := SharingPair();
    ghost var h0, rank0 := heap.Here(), heap.rank;
    NodeFacts(h0, rank0, heap.handles + heap.lost, heap.limit, x);
    var extra := heap.NewCopy(Zeros(QUARTER));
    ghost var h, rank := heap.Here(), heap.rank;
    StaysLive(h0, rank0, h, rank, x);
    StaysLive(h0, rank0, h, rank, shared);
    NodeFacts(h, rank, heap.handles + heap.lost, heap.limit, x);
    SingleSegment(h, rank, shared, extra);
    SingleSegment(h, rank, extra, shared);
    SharedOnce(h, rank, x, c, shared, Zeros(QUARTER));
    var r := heap.Append(Some(shared), extra);
    GrewBy(h, rank, shared, Zeros(QUARTER), heap.Here(), heap.rank, x);
    HandleLength(heap.Here(), heap.rank, heap.handles + heap.lost, heap.limit, x);
    len := heap.Length(Some(x));
  }

  /** What is left of the blocks is what callers own and what live nodes own. */
  ghost predicate Kept(h': Heap, h: Heap, given: set<Ptr>) {
    h'.blocks == map b | b in h.blocks && b in given + OwnedBlocks(h') :: h.blocks[b]
  }

  lemma KeptIs(h': Heap, h: Heap, given: set<Ptr>)
    requires Conserved(h', given) && forall b :: b in h'.blocks ==> b in h.blocks && h'.blocks[b] == h.blocks[b]
    ensures Kept(h', h, given)
  {
    hide OwnedBlocks;
  }

  lemma KeptTransitive(h2: Heap, h1: Heap, h: Heap, given: set<Ptr>)
    requires Kept(h2, h1, given) && Kept(h1, h, given) && Conserved(h2, given)
    ensures Kept(h2, h, given)
  {
    hide OwnedBlocks;
    KeptIs(h2, h, given);
  }

  lemma NoOwnerYet(h: Heap, given: set<Ptr>, block: Ptr, len: nat, owned: bool)
    requires Conserved(h, given) && Chained(h) && Available(h, block, len, owned)
    ensures owned ==> block in given
  {
    if owned {
      forall p | p in h.nodes && h.nodes[p].owned ensures h.nodes[p].data != block { assert IsHead(h, p); }
    }
  }

  lemma StaysLive(h: Heap, rank: Rank, h': Heap, rank': Rank, p: Ptr)
    requires SameContents(h, rank, h', rank') && p in h.nodes
    ensures Live(h', rank', p) == Live(h, rank, p)
  {
  }

  lemma GrewBy(h: Heap, rank: Rank, last: Ptr, extra: seq<byte>, h': Heap, rank': Rank, x: Ptr)
    requires AllGrown(h, rank, last, extra, h', rank') && x in h.nodes
    ensures Live(h', rank', x) == Grown(h, rank, x, last, extra)
  {
  }

  lemma HandleLength(h: Heap, rank: Rank, refs: multiset<Ptr>, limit: Ptr, p: Ptr)
    requires HeapOk(h, rank, refs, limit) && p in refs
    ensures WellFormed(h, rank) && p in h.nodes && Live(h, rank, p) == Rest(h, rank, Some(p))
  {
  }

  lemma SingleSegment(h: Heap, rank: Rank, p: Ptr, q: Ptr)
    requires WellFormed(h, rank) && IsHead(h, p) && h.nodes[p].next.None? && p != q
    ensures !Leads(h, rank, p, q) && LastOf(h, rank, p) == p
  {
  }

  lemma SharedOnce(h: Heap, rank: Rank, x: Ptr, c: Ptr, b: Ptr, extra: seq<byte>)
    requires WellFormed(h, rank) && IsHead(h, x) && h.nodes[x].next == Some(c) && c in h.nodes
    requires h.nodes[c].orig == Some(b) && h.nodes[c].next.None? && IsHead(h, b) && h.nodes[b].next.None? && x != b
    ensures |Grown(h, rank, x, b, extra)| == |Live(h, rank, x)| + |extra|
  {
    assert Below(h, rank, c, x) && Below(h, rank, b, c);
    assert Visits(h, rank, b, b) == 1;
    assert Visits(h, rank, c, b) == 1;
    assert Visits(h, rank, x, b) == 1;
    VisitsOnlyIfReached(h, rank, x, b);
    GrownLength(h, rank, x, b, extra);
  }

  function AddU32(a: nat, b: nat): nat {
    (a + b) % U32_LIMIT
  }

  lemma AddModulo(a: nat, b: nat)
    ensures AddU32(a % U32_LIMIT, b) == (a + b) % U32_LIMIT
    ensures AddU32(a % U32_LIMIT, b % U32_LIMIT) == (a + b) % U32_LIMIT
  {
    var q, r := a / U32_LIMIT, b / U32_LIMIT;
    assert a + b == q * U32_LIMIT + (a % U32_LIMIT + b);
    ModuloOfSum(q, a % U32_LIMIT + b);
    assert a % U32_LIMIT + b == r * U32_LIMIT + (a % U32_LIMIT + b % U32_LIMIT);
    ModuloOfSum(r, a % U32_LIMIT + b % U32_LIMIT);
  }
}
