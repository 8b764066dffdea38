// The rope heap behind logdb_buffer.c: what a buffer contains, what it can
// reach, and who refers to it.
//
// The C heap is explicit: a pointer is a key, `free` removes the key, so that a
// dangling pointer is a key that is not there.
module Rope {
  import opened Bytes

  type Ptr = nat

  datatype Node = Node(
    data: Ptr,           // block of bytes
    len: nat,
    owned: bool,         // has a disposer
    orig: Option<Ptr>,   // the buffer this is a shallow copy of
    next: Option<Ptr>,   // next segment
    refcnt: int)

  datatype Heap = Heap(nodes: map<Ptr, Node>, blocks: map<Ptr, seq<byte>>)

  type Rank = map<Ptr, nat>

  /** Links lead to live nodes, and down in rank: there is no cycle. */
  predicate Ranked(h: Heap, rank: Rank) {
    forall p :: p in h.nodes ==>
      && p in rank
      && (h.nodes[p].orig.Some? ==> Below(h, rank, h.nodes[p].orig.value, p))
      && (h.nodes[p].next.Some? ==> Below(h, rank, h.nodes[p].next.value, p))
  }

  predicate Below(h: Heap, rank: Rank, q: Ptr, p: Ptr) {
    q in h.nodes && q in rank && p in rank && rank[q] < rank[p]
  }

  /** A node that is no copy has its bytes. */
  predicate Readable(h: Heap) {
    forall p :: p in h.nodes && h.nodes[p].orig.None? ==> OwnBytesLive(h, h.nodes[p])
  }

  predicate OwnBytesLive(h: Heap, n: Node) {
    n.data in h.blocks && n.len <= |h.blocks[n.data]|
  }

  /** Copies are of heads, and chains continue with copies. */
  predicate Chained(h: Heap) {
    forall p :: p in h.nodes ==>
      && (h.nodes[p].orig.Some? ==> IsHead(h, h.nodes[p].orig.value))
      && (h.nodes[p].next.Some? ==> IsCopy(h, h.nodes[p].next.value))
      && (h.nodes[p].owned ==> h.nodes[p].orig.None?)
  }

  predicate IsHead(h: Heap, p: Ptr) {
    p in h.nodes && h.nodes[p].orig.None?
  }

  predicate IsCopy(h: Heap, p: Ptr) {
    p in h.nodes && h.nodes[p].orig.Some?
  }

  /** No two nodes continue with the same segment. */
  predicate Unshared(h: Heap) {
    forall p, q :: p in h.nodes && q in h.nodes && p != q && h.nodes[p].next.Some?
                   ==> h.nodes[p].next != h.nodes[q].next
  }

  predicate WellFormed(h: Heap, rank: Rank) {
    Ranked(h, rank) && Readable(h) && Chained(h) && Unshared(h)
  }

  /** The bytes a buffer stands for. */
  function Content(h: Heap, rank: Rank, p: Ptr): seq<byte>
    requires Ranked(h, rank) && Readable(h) && p in h.nodes
    decreases rank[p], 1
  {
    Segment(h, rank, p) + (if h.nodes[p].next.Some? then Content(h, rank, h.nodes[p].next.value) else [])
  }

  function Segment(h: Heap, rank: Rank, p: Ptr): seq<byte>
    requires Ranked(h, rank) && Readable(h) && p in h.nodes
    decreases rank[p], 0
  {
    var n := h.nodes[p];
    if n.orig.Some? then Content(h, rank, n.orig.value) else h.blocks[n.data][..n.len]
  }

  function Rest(h: Heap, rank: Rank, p: Option<Ptr>): seq<byte>
    requires Ranked(h, rank) && Readable(h) && (p.Some? ==> p.value in h.nodes)
  {
    if p.Some? then Content(h, rank, p.value) else []
  }

  predicate Reaches(h: Heap, rank: Rank, p: Ptr, q: Ptr)
    requires Ranked(h, rank) && p in h.nodes
    decreases rank[p]
  {
    || p == q
    || (h.nodes[p].orig.Some? && Reaches(h, rank, h.nodes[p].orig.value, q))
    || (h.nodes[p].next.Some? && Reaches(h, rank, h.nodes[p].next.value, q))
  }

  function Tail(h: Heap, rank: Rank, p: Ptr): (t: Ptr)
    requires Ranked(h, rank) && p in h.nodes
    ensures t in h.nodes && h.nodes[t].next.None?
    decreases rank[p]
  {
    if h.nodes[p].next.Some? then Tail(h, rank, h.nodes[p].next.value) else p
  }

  // ------------------------------------------------------------ reachability

  lemma {:induction false} ReachesDown(h: Heap, rank: Rank, p: Ptr, q: Ptr)
    requires Ranked(h, rank) && p in h.nodes && Reaches(h, rank, p, q)
    ensures q in h.nodes && rank[q] <= rank[p]
    decreases rank[p]
  {
    if p != q {
      var n := h.nodes[p];
      if n.orig.Some? && Reaches(h, rank, n.orig.value, q) {
        ReachesDown(h, rank, n.orig.value, q);
      } else {
        ReachesDown(h, rank, n.next.value, q);
      }
    }
  }

  /** The only way into a chain segment is through the segment before it. */
  lemma {:induction false} ReachesThroughPredecessor(h: Heap, rank: Rank, p: Ptr, q: Ptr, r: Ptr)
    requires WellFormed(h, rank) && p in h.nodes && r in h.nodes && h.nodes[r].next == Some(q)
    requires p != q && Reaches(h, rank, p, q)
    ensures Reaches(h, rank, p, r)
    decreases rank[p]
  {
    var n := h.nodes[p];
    assert IsCopy(h, q);
    if n.orig.Some? && Reaches(h, rank, n.orig.value, q) {
      assert IsHead(h, n.orig.value);
      ReachesThroughPredecessor(h, rank, n.orig.value, q, r);
    } else if n.next != Some(q) {
      ReachesThroughPredecessor(h, rank, n.next.value, q, r);
    }
  }

  /** A head reaches the last segment of a buffer exactly when it reaches the buffer. */
  lemma {:induction false} HeadReachesTail(h: Heap, rank: Rank, x: Ptr, p: Ptr)
    requires WellFormed(h, rank) && IsHead(h, x) && p in h.nodes
    ensures Reaches(h, rank, x, Tail(h, rank, p)) <==> Reaches(h, rank, x, p)
    decreases rank[p]
  {
    var n := h.nodes[p];
    if n.next.Some? {
      HeadReachesTail(h, rank, x, n.next.value);
      assert IsCopy(h, n.next.value);
      if Reaches(h, rank, x, n.next.value) {
        ReachesThroughPredecessor(h, rank, x, n.next.value, p);
      }
      if Reaches(h, rank, x, p) {
        assert Reaches(h, rank, n.next.value, n.next.value);
        ReachesTransitive(h, rank, x, p, n.next.value);
      }
    }
  }

  lemma {:induction false} ReachesTransitive(h: Heap, rank: Rank, p: Ptr, q: Ptr, r: Ptr)
    requires Ranked(h, rank) && p in h.nodes && q in h.nodes
    requires Reaches(h, rank, p, q) && Reaches(h, rank, q, r)
    ensures Reaches(h, rank, p, r)
    decreases rank[p]
  {
    if p != q {
      var n := h.nodes[p];
      if n.orig.Some? && Reaches(h, rank, n.orig.value, q) {
        ReachesTransitive(h, rank, n.orig.value, q, r);
      } else {
        ReachesTransitive(h, rank, n.next.value, q, r);
      }
    }
  }

  // ------------------------------------------------------------------ append

  /** `logdb_buffer_append`: node `c` becomes a copy of `b2` behind the last segment of `b1`. */
  function Appended(h: Heap, tail: Ptr, b2: Ptr, c: Ptr): Heap
    requires tail in h.nodes && b2 in h.nodes
  {
    var nodes := h.nodes[b2 := h.nodes[b2].(refcnt := h.nodes[b2].refcnt + 1)];
    var copy := Node(h.nodes[b2].data, h.nodes[b2].len, false, Some(b2), None, 1);
    var nodes := nodes[c := copy];
    h.(nodes := nodes[tail := nodes[tail].(next := Some(c))])
  }

  function AppendRank(h: Heap, rank: Rank, tail: Ptr, b2: Ptr, c: Ptr): Rank {
    if !Ranked(h, rank) || b2 !in h.nodes then rank else
    (map x | x in h.nodes :: if Reaches(h, rank, x, tail) then rank[x] + rank[b2] + 2 else rank[x])
    [c := rank[b2] + 1]
  }

  lemma AppendRanked(h: Heap, rank: Rank, tail: Ptr, b2: Ptr, c: Ptr)
    requires Ranked(h, rank) && tail in h.nodes && h.nodes[tail].next.None? && b2 in h.nodes
    requires c !in h.nodes && !Reaches(h, rank, b2, tail)
    ensures Ranked(Appended(h, tail, b2, c), AppendRank(h, rank, tail, b2, c))
  {
    var h', rank' := Appended(h, tail, b2, c), AppendRank(h, rank, tail, b2, c);
    forall p | p in h'.nodes
      ensures p in rank'
      ensures h'.nodes[p].orig.Some? ==> Below(h', rank', h'.nodes[p].orig.value, p)
      ensures h'.nodes[p].next.Some? ==> Below(h', rank', h'.nodes[p].next.value, p)
    {
      if p != c {
        var n := h.nodes[p];
        if n.orig.Some? { assert Below(h, rank, n.orig.value, p); }
        if n.next.Some? { assert Below(h, rank, n.next.value, p); }
        if p == tail { assert Reaches(h, rank, p, tail); }
      }
    }
  }

  lemma AppendKeepsForm(h: Heap, rank: Rank, tail: Ptr, b2: Ptr, c: Ptr)
    requires WellFormed(h, rank) && tail in h.nodes && h.nodes[tail].next.None? && IsHead(h, b2)
    requires c !in h.nodes && !Reaches(h, rank, b2, tail)
    ensures WellFormed(Appended(h, tail, b2, c), AppendRank(h, rank, tail, b2, c))
  {
    AppendRanked(h, rank, tail, b2, c);
    var h' := Appended(h, tail, b2, c);
    forall p | p in h'.nodes && h'.nodes[p].orig.None? ensures OwnBytesLive(h', h'.nodes[p]) {
      assert OwnBytesLive(h, h.nodes[p]);
    }
    AppendChained(h, tail, b2, c);
  }

  lemma AppendChained(h: Heap, tail: Ptr, b2: Ptr, c: Ptr)
    requires Chained(h) && Unshared(h) && tail in h.nodes && h.nodes[tail].next.None? && IsHead(h, b2)
    requires c !in h.nodes
    ensures Chained(Appended(h, tail, b2, c)) && Unshared(Appended(h, tail, b2, c))
  {
    var h' := Appended(h, tail, b2, c);
    hide Unshared;
    forall p | p in h'.nodes
      ensures h'.nodes[p].orig.Some? ==> IsHead(h', h'.nodes[p].orig.value)
      ensures h'.nodes[p].next.Some? ==> IsCopy(h', h'.nodes[p].next.value)
      ensures h'.nodes[p].owned ==> h'.nodes[p].orig.None?
    {
      if p != c {
        assert h.nodes[p].orig.Some? ==> IsHead(h, h.nodes[p].orig.value);
        assert h.nodes[p].next.Some? ==> IsCopy(h, h.nodes[p].next.value);
      }
    }
    AppendUnshared(h, tail, b2, c);
  }

  lemma AppendUnshared(h: Heap, tail: Ptr, b2: Ptr, c: Ptr)
    requires Chained(h) && Unshared(h) && tail in h.nodes && h.nodes[tail].next.None? && b2 in h.nodes && c !in h.nodes
    ensures Unshared(Appended(h, tail, b2, c))
  {
    var h' := Appended(h, tail, b2, c);
    forall p, q | p in h'.nodes && q in h'.nodes && p != q && h'.nodes[p].next.Some?
      ensures h'.nodes[p].next != h'.nodes[q].next
    {
      assert p != c ==> (h.nodes[p].next.Some? ==> IsCopy(h, h.nodes[p].next.value));
      assert q != c ==> (h.nodes[q].next.Some? ==> IsCopy(h, h.nodes[q].next.value));
    }
  }

  lemma {:induction false} ContentElsewhere(h: Heap, rank: Rank, tail: Ptr, b2: Ptr, c: Ptr, x: Ptr)
    requires WellFormed(h, rank) && tail in h.nodes && h.nodes[tail].next.None? && IsHead(h, b2)
    requires c !in h.nodes && !Reaches(h, rank, b2, tail)
    requires WellFormed(Appended(h, tail, b2, c), AppendRank(h, rank, tail, b2, c))
    requires x in h.nodes && !Reaches(h, rank, x, tail)
    ensures Content(Appended(h, tail, b2, c), AppendRank(h, rank, tail, b2, c), x) == Content(h, rank, x)
    decreases rank[x]
  {
    var n := h.nodes[x];
    if n.orig.Some? { ContentElsewhere(h, rank, tail, b2, c, n.orig.value); }
    if n.next.Some? { ContentElsewhere(h, rank, tail, b2, c, n.next.value); }
  }

  /** What comes before the last segment of a chain does not lead to it. */
  lemma SegmentKept(h: Heap, rank: Rank, tail: Ptr, b2: Ptr, c: Ptr, p: Ptr)
    requires WellFormed(h, rank) && p in h.nodes && tail == Tail(h, rank, p) && IsHead(h, b2)
    requires c !in h.nodes && !Reaches(h, rank, b2, tail)
    requires WellFormed(Appended(h, tail, b2, c), AppendRank(h, rank, tail, b2, c))
    ensures Segment(Appended(h, tail, b2, c), AppendRank(h, rank, tail, b2, c), p) == Segment(h, rank, p)
  {
    hide Unshared, Readable, AppendRank;
    var n := h.nodes[p];
    if n.orig.Some? {
      if Reaches(h, rank, n.orig.value, tail) {
        HeadReachesTail(h, rank, n.orig.value, p);
        ReachesDown(h, rank, n.orig.value, p);
        assert false;
      }
      ContentElsewhere(h, rank, tail, b2, c, n.orig.value);
    }
  }

  lemma {:induction false} ContentOfAppended(h: Heap, rank: Rank, tail: Ptr, b2: Ptr, c: Ptr, p: Ptr)
    requires WellFormed(h, rank) && p in h.nodes && tail == Tail(h, rank, p) && IsHead(h, b2)
    requires c !in h.nodes && !Reaches(h, rank, b2, tail)
    requires WellFormed(Appended(h, tail, b2, c), AppendRank(h, rank, tail, b2, c))
    ensures Content(Appended(h, tail, b2, c), AppendRank(h, rank, tail, b2, c), p)
            == Content(h, rank, p) + Content(h, rank, b2)
    decreases rank[p]
  {
    hide Unshared, Readable, AppendRank;
    var h', rank' := Appended(h, tail, b2, c), AppendRank(h, rank, tail, b2, c);
    var n := h.nodes[p];
    SegmentKept(h, rank, tail, b2, c, p);
    if n.next.Some? {
      ContentOfAppended(h, rank, tail, b2, c, n.next.value);
      assert Segment(h, rank, p) + (Content(h, rank, n.next.value) + Content(h, rank, b2))
             == Segment(h, rank, p) + Content(h, rank, n.next.value) + Content(h, rank, b2);
    } else {
      ContentElsewhere(h, rank, tail, b2, c, b2);
      assert Content(h', rank', c) == Content(h', rank', b2) + [];
      assert Content(h, rank, p) == Segment(h, rank, p) + [];
      assert h'.nodes[p].next == Some(c);
    }
  }

  /** The content of `x` when `extra` comes behind segment `tail`, wherever that is
      shared. */
  function Extended(h: Heap, rank: Rank, x: Ptr, tail: Ptr, extra: seq<byte>): seq<byte>
    requires Ranked(h, rank) && Readable(h) && x in h.nodes
    decreases rank[x]
  {
    var n := h.nodes[x];
    (if n.orig.Some? then Extended(h, rank, n.orig.value, tail, extra) else h.blocks[n.data][..n.len])
    + (if n.next.Some? then Extended(h, rank, n.next.value, tail, extra) else [])
    + (if x == tail then extra else [])
  }

  /** How often a traversal of `x` comes by segment `tail`. */
  function Visits(h: Heap, rank: Rank, x: Ptr, tail: Ptr): nat
    requires Ranked(h, rank) && x in h.nodes
    decreases rank[x]
  {
    var n := h.nodes[x];
    (if n.orig.Some? then Visits(h, rank, n.orig.value, tail) else 0)
    + (if n.next.Some? then Visits(h, rank, n.next.value, tail) else 0)
    + (if x == tail then 1 else 0)
  }

  lemma {:induction false} VisitsOnlyIfReached(h: Heap, rank: Rank, x: Ptr, tail: Ptr)
    requires Ranked(h, rank) && x in h.nodes
    ensures Visits(h, rank, x, tail) > 0 <==> Reaches(h, rank, x, tail)
    decreases rank[x]
  {
    var n := h.nodes[x];
    if n.orig.Some? { VisitsOnlyIfReached(h, rank, n.orig.value, tail); }
    if n.next.Some? { VisitsOnlyIfReached(h, rank, n.next.value, tail); }
  }

  lemma {:induction false} ExtendedLength(h: Heap, rank: Rank, x: Ptr, tail: Ptr, extra: seq<byte>)
    requires WellFormed(h, rank) && x in h.nodes
    ensures |Extended(h, rank, x, tail, extra)| == |Content(h, rank, x)| + Visits(h, rank, x, tail) * |extra|
    decreases rank[x]
  {
    var n := h.nodes[x];
    var a := if n.orig.Some? then Visits(h, rank, n.orig.value, tail) else 0;
    var b := if n.next.Some? then Visits(h, rank, n.next.value, tail) else 0;
    if n.orig.Some? { ExtendedLength(h, rank, n.orig.value, tail, extra); }
    if n.next.Some? { ExtendedLength(h, rank, n.next.value, tail, extra); }
    Spread(a, b, |extra|);
    assert Visits(h, rank, x, tail) == if x == tail then a + b + 1 else a + b;
    assert |Content(h, rank, x)| == |Segment(h, rank, x)| + |Rest(h, rank, n.next)|;
  }

  lemma Spread(a: nat, b: nat, size: nat)
    ensures (a + b) * size == a * size + b * size
    ensures (a + b + 1) * size == a * size + b * size + size
    ensures 0 * size == 0
  {
  }

  /** Appending to one buffer extends every buffer that shares its last segment. */
  lemma {:induction false} ContentAfterAppend(h: Heap, rank: Rank, tail: Ptr, b2: Ptr, c: Ptr, x: Ptr)
    requires WellFormed(h, rank) && tail in h.nodes && h.nodes[tail].next.None? && IsHead(h, b2)
    requires c !in h.nodes && !Reaches(h, rank, b2, tail)
    requires WellFormed(Appended(h, tail, b2, c), AppendRank(h, rank, tail, b2, c))
    requires x in h.nodes
    ensures Content(Appended(h, tail, b2, c), AppendRank(h, rank, tail, b2, c), x)
            == Extended(h, rank, x, tail, Content(h, rank, b2))
    decreases rank[x]
  {
    hide Unshared, Readable, AppendRank;
    var h', rank' := Appended(h, tail, b2, c), AppendRank(h, rank, tail, b2, c);
    var n := h.nodes[x];
    if n.orig.Some? { ContentAfterAppend(h, rank, tail, b2, c, n.orig.value); }
    if n.next.Some? { ContentAfterAppend(h, rank, tail, b2, c, n.next.value); }
    if x == tail {
      ContentElsewhere(h, rank, tail, b2, c, b2);
      assert Content(h', rank', c) == Content(h', rank', b2) + [];
      assert h'.nodes[x].next == Some(c);
    } else {
      assert h'.nodes[x].next == n.next;
    }
  }

  /** Appending is exactly as safe as the caller's promise that the first buffer
      cannot be reached from the second: otherwise it closes a cycle. */
  lemma AppendIsAcyclicExactly(h: Heap, rank: Rank, b1: Ptr, b2: Ptr, c: Ptr)
    requires WellFormed(h, rank) && IsHead(h, b1) && IsHead(h, b2) && c !in h.nodes
    ensures (exists rank' :: Ranked(Appended(h, Tail(h, rank, b1), b2, c), rank')) <==> !Reaches(h, rank, b2, b1)
  {
    var tail := Tail(h, rank, b1);
    HeadReachesTail(h, rank, b2, b1);
    if !Reaches(h, rank, b2, b1) {
      AppendKeepsForm(h, rank, tail, b2, c);
      assert Ranked(Appended(h, tail, b2, c), AppendRank(h, rank, tail, b2, c));
    } else {
      forall rank' | Ranked(Appended(h, tail, b2, c), rank') ensures false {
        NoRankOnCycle(h, rank, tail, b2, c, b2, rank');
      }
    }
  }

  lemma {:induction false} NoRankOnCycle(h: Heap, rank: Rank, tail: Ptr, b2: Ptr, c: Ptr, p: Ptr, rank': Rank)
    requires Ranked(h, rank) && tail in h.nodes && h.nodes[tail].next.None? && b2 in h.nodes && c !in h.nodes
    requires Ranked(Appended(h, tail, b2, c), rank')
    requires p in h.nodes && Reaches(h, rank, p, tail)
    ensures p in rank' && b2 in rank' && rank'[p] > rank'[b2]
    decreases rank[p]
  {
    var h' := Appended(h, tail, b2, c);
    assert h'.nodes[c].orig == Some(b2) && h'.nodes[tail].next == Some(c);
    if p != tail {
      var n := h.nodes[p];
      assert h'.nodes[p].orig == n.orig && h'.nodes[p].next == n.next;
      if n.orig.Some? && Reaches(h, rank, n.orig.value, tail) {
        NoRankOnCycle(h, rank, tail, b2, c, n.orig.value, rank');
      } else {
        NoRankOnCycle(h, rank, tail, b2, c, n.next.value, rank');
      }
    }
  }

  // ----------------------------------------------------------------- flatten

  /** The end of `logdb_buffer_data`: `p` gets a block of its own with all the bytes. */
  function Flattened(h: Heap, p: Ptr, block: Ptr, bytes: seq<byte>): Heap
    requires p in h.nodes
  {
    var n := h.nodes[p];
    Heap(h.nodes[p := n.(data := block, len := |bytes|, owned := true, next := None)],
         (if n.owned then h.blocks - {n.data} else h.blocks)[block := bytes])
  }

  /** A block with a disposer is the data of one head only. */
  ghost predicate SoleOwners(h: Heap) {
    forall p, q :: IsHead(h, p) && IsHead(h, q) && p != q && h.nodes[p].owned
                   ==> h.nodes[p].data != h.nodes[q].data
  }

  lemma FlattenKeepsForm(h: Heap, rank: Rank, p: Ptr, block: Ptr, bytes: seq<byte>)
    requires WellFormed(h, rank) && SoleOwners(h) && IsHead(h, p) && block !in h.blocks
    ensures WellFormed(Flattened(h, p, block, bytes), rank) && SoleOwners(Flattened(h, p, block, bytes))
  {
    hide Ranked, Readable, Chained, Unshared, Flattened;
    FlattenRanked(h, rank, p, block, bytes);
    FlattenReadable(h, p, block, bytes);
    FlattenChained(h, p, block, bytes);
  }

  lemma FlattenReadable(h: Heap, p: Ptr, block: Ptr, bytes: seq<byte>)
    requires Readable(h) && SoleOwners(h) && IsHead(h, p) && block !in h.blocks
    ensures Readable(Flattened(h, p, block, bytes)) && SoleOwners(Flattened(h, p, block, bytes))
  {
    var h' := Flattened(h, p, block, bytes);
    forall x | x in h'.nodes && h'.nodes[x].orig.None? ensures OwnBytesLive(h', h'.nodes[x]) {
      assert OwnBytesLive(h, h.nodes[x]);
    }
    forall x, y | IsHead(h', x) && IsHead(h', y) && x != y && h'.nodes[x].owned
      ensures h'.nodes[x].data != h'.nodes[y].data
    {
      assert IsHead(h, x) && IsHead(h, y) && OwnBytesLive(h, h.nodes[x]) && OwnBytesLive(h, h.nodes[y]);
    }
  }

  lemma FlattenChained(h: Heap, p: Ptr, block: Ptr, bytes: seq<byte>)
    requires Chained(h) && Unshared(h) && IsHead(h, p)
    ensures Chained(Flattened(h, p, block, bytes)) && Unshared(Flattened(h, p, block, bytes))
  {
    var h' := Flattened(h, p, block, bytes);
    forall x | x in h'.nodes
      ensures h'.nodes[x].orig.Some? ==> IsHead(h', h'.nodes[x].orig.value)
      ensures h'.nodes[x].next.Some? ==> IsCopy(h', h'.nodes[x].next.value)
    {
      assert h.nodes[x].orig.Some? ==> IsHead(h, h.nodes[x].orig.value);
      assert h.nodes[x].next.Some? ==> IsCopy(h, h.nodes[x].next.value);
    }
  }

  lemma FlattenRanked(h: Heap, rank: Rank, p: Ptr, block: Ptr, bytes: seq<byte>)
    requires Ranked(h, rank) && p in h.nodes
    ensures Ranked(Flattened(h, p, block, bytes), rank)
  {
    var h' := Flattened(h, p, block, bytes);
    forall x | x in h'.nodes
      ensures h'.nodes[x].orig.Some? ==> Below(h', rank, h'.nodes[x].orig.value, x)
      ensures h'.nodes[x].next.Some? ==> Below(h', rank, h'.nodes[x].next.value, x)
    {
      var n := h.nodes[x];
      if n.orig.Some? { assert Below(h, rank, n.orig.value, x); }
      if n.next.Some? { assert Below(h, rank, n.next.value, x); }
    }
  }

  /** Flattening one buffer leaves the content of every buffer as it was. */
  lemma {:induction false} FlattenKeepsContent(h: Heap, rank: Rank, p: Ptr, block: Ptr, x: Ptr)
    requires WellFormed(h, rank) && SoleOwners(h) && IsHead(h, p) && block !in h.blocks && x in h.nodes
    requires WellFormed(Flattened(h, p, block, Content(h, rank, p)), rank)
    ensures Content(Flattened(h, p, block, Content(h, rank, p)), rank, x) == Content(h, rank, x)
    decreases rank[x]
  {
    var h' := Flattened(h, p, block, Content(h, rank, p));
    var n := h.nodes[x];
    if x == p {
      assert h'.blocks[block][..|Content(h, rank, p)|] == Content(h, rank, p);
    } else {
      if n.orig.Some? {
        FlattenKeepsContent(h, rank, p, block, n.orig.value);
      } else {
        assert OwnBytesLive(h, n);
        assert IsHead(h, x);
        assert h'.blocks[n.data] == h.blocks[n.data];
      }
      if n.next.Some? { FlattenKeepsContent(h, rank, p, block, n.next.value); }
    }
  }

  // -------------------------------------------------------------- new, free

  /** Nodes present in both heaps differ in their counts only, and read the same bytes. */
  ghost predicate Agree(h: Heap, h': Heap) {
    && (forall y :: y in h.nodes && y in h'.nodes ==> h'.nodes[y] == h.nodes[y].(refcnt := h'.nodes[y].refcnt))
    && (forall y :: IsHead(h, y) && y in h'.nodes ==> SameBlock(h, h', h.nodes[y].data))
  }

  predicate SameBlock(h: Heap, h': Heap, b: Ptr) {
    b in h.blocks && b in h'.blocks && h'.blocks[b] == h.blocks[b]
  }

  lemma {:induction false} ContentAgrees(h: Heap, rank: Rank, h': Heap, rank': Rank, x: Ptr)
    requires WellFormed(h, rank) && WellFormed(h', rank') && Agree(h, h') && x in h.nodes && x in h'.nodes
    ensures Content(h', rank', x) == Content(h, rank, x)
    decreases rank[x]
  {
    var n := h.nodes[x];
    if n.orig.Some? { ContentAgrees(h, rank, h', rank', n.orig.value); } else { assert IsHead(h, x); }
    if n.next.Some? { ContentAgrees(h, rank, h', rank', n.next.value); }
  }

  /** The heap without an unreferenced node and, if it was owned, its block. */
  function Removed(h: Heap, p: Ptr): Heap
    requires p in h.nodes
  {
    Heap(h.nodes - {p}, if h.nodes[p].owned then h.blocks - {h.nodes[p].data} else h.blocks)
  }

  lemma RemoveKeepsForm(h: Heap, rank: Rank, p: Ptr)
    requires WellFormed(h, rank) && SoleOwners(h) && p in h.nodes && Unlinked(h, p)
    ensures WellFormed(Removed(h, p), rank) && SoleOwners(Removed(h, p))
    ensures Agree(h, Removed(h, p))
  {
    OwnersAreHeads(h, p);
    hide Ranked, Readable, Chained, Unshared, Removed;
    RemoveRanked(h, rank, p);
    RemoveReadable(h, p);
    RemoveChained(h, p);
  }

  lemma OwnersAreHeads(h: Heap, p: Ptr)
    requires Chained(h) && p in h.nodes
    ensures h.nodes[p].owned ==> h.nodes[p].orig.None?
  {
  }

  predicate Unlinked(h: Heap, p: Ptr) {
    forall x :: x in h.nodes ==> h.nodes[x].orig != Some(p) && h.nodes[x].next != Some(p)
  }

  lemma RemoveRanked(h: Heap, rank: Rank, p: Ptr)
    requires Ranked(h, rank) && p in h.nodes && Unlinked(h, p)
    ensures Ranked(Removed(h, p), rank)
  {
    var h' := Removed(h, p);
    forall x | x in h'.nodes
      ensures h'.nodes[x].orig.Some? ==> Below(h', rank, h'.nodes[x].orig.value, x)
      ensures h'.nodes[x].next.Some? ==> Below(h', rank, h'.nodes[x].next.value, x)
    {
      assert h.nodes[x].orig.Some? ==> Below(h, rank, h.nodes[x].orig.value, x);
      assert h.nodes[x].next.Some? ==> Below(h, rank, h.nodes[x].next.value, x);
    }
  }

  lemma RemoveReadable(h: Heap, p: Ptr)
    requires Readable(h) && SoleOwners(h) && p in h.nodes && (h.nodes[p].owned ==> h.nodes[p].orig.None?)
    ensures Readable(Removed(h, p)) && SoleOwners(Removed(h, p)) && Agree(h, Removed(h, p))
  {
    var h' := Removed(h, p);
    forall x | x in h'.nodes && h'.nodes[x].orig.None?
      ensures OwnBytesLive(h', h'.nodes[x]) && SameBlock(h, h', h.nodes[x].data)
    {
      assert OwnBytesLive(h, h.nodes[x]) && IsHead(h, x);
      if h.nodes[p].owned { assert IsHead(h, p); }
    }
  }

  lemma RemoveChained(h: Heap, p: Ptr)
    requires Chained(h) && Unshared(h) && p in h.nodes && Unlinked(h, p)
    ensures Chained(Removed(h, p)) && Unshared(Removed(h, p))
  {
    var h' := Removed(h, p);
    forall x | x in h'.nodes
      ensures h'.nodes[x].orig.Some? ==> IsHead(h', h'.nodes[x].orig.value)
      ensures h'.nodes[x].next.Some? ==> IsCopy(h', h'.nodes[x].next.value)
    {
      assert h.nodes[x].orig.Some? ==> IsHead(h, h.nodes[x].orig.value);
      assert h.nodes[x].next.Some? ==> IsCopy(h, h.nodes[x].next.value);
    }
  }
}
