// Each operation of the rope heap, as a change of the heap value: what it keeps
// and what it does to the content of every buffer.
module RopeOps {
  import opened Bytes
  import opened Layout
  import opened Rope
  import opened RopeCounts

  /** The invariant of the heap; `refs` are the references held outside it. */
  ghost predicate HeapOk(h: Heap, rank: Rank, refs: multiset<Ptr>, limit: Ptr) {
    && WellFormed(h, rank) && SoleOwners(h) && Counted(h, refs)
    && (forall p :: p in h.nodes ==> p < limit)
    && (forall b :: b in h.blocks ==> b < limit)
  }

  /** The blocks that some node will dispose of. */
  function OwnedBlocks(h: Heap): set<Ptr> {
    set p | p in h.nodes && h.nodes[p].owned :: h.nodes[p].data
  }

  /** Every block is one that a caller provided and still has to care for, or the
      data of a live node that owns it. */
  ghost predicate Conserved(h: Heap, given: set<Ptr>) {
    h.blocks.Keys == given + OwnedBlocks(h) && given !! OwnedBlocks(h)
  }

  predicate SameOwners(h: Heap, h': Heap) {
    && (forall p :: p in h.nodes ==>
          p in h'.nodes && h'.nodes[p].owned == h.nodes[p].owned && h'.nodes[p].data == h.nodes[p].data)
    && (forall p :: p in h'.nodes && p !in h.nodes ==> !h'.nodes[p].owned)
  }

  lemma SameOwnersConserved(h: Heap, h': Heap, given: set<Ptr>)
    requires Conserved(h, given) && SameOwners(h, h') && h'.blocks == h.blocks
    ensures Conserved(h', given)
  {
    assert OwnedBlocks(h') == OwnedBlocks(h) by {
      forall b | b in OwnedBlocks(h) ensures b in OwnedBlocks(h') {
        var p :| p in h.nodes && h.nodes[p].owned && h.nodes[p].data == b;
        assert p in h'.nodes;
      }
    }
  }

  lemma WithBlockConserved(h: Heap, given: set<Ptr>, block: Ptr, bytes: seq<byte>)
    requires Conserved(h, given) && block !in h.blocks
    ensures Conserved(WithBlock(h, block, bytes), given + {block})
  {
    assert OwnedBlocks(WithBlock(h, block, bytes)) == OwnedBlocks(h);
  }

  lemma WithHeadConserved(h: Heap, given: set<Ptr>, p: Ptr, block: Ptr, len: nat, owned: bool)
    requires Conserved(h, given) && Chained(h) && Available(h, block, len, owned) && p !in h.nodes
    ensures Conserved(WithHead(h, p, block, len, owned), if owned then given - {block} else given)
  {
    var h' := WithHead(h, p, block, len, owned);
    forall x | x in h.nodes ensures x in h'.nodes && h'.nodes[x] == h.nodes[x] {}
    if owned {
      forall x | x in h.nodes && h.nodes[x].owned ensures h.nodes[x].data != block { assert IsHead(h, x); }
      assert block in given;
      assert OwnedBlocks(h') == OwnedBlocks(h) + {block} by {
        assert h'.nodes[p].owned && h'.nodes[p].data == block;
        forall b | b in OwnedBlocks(h) ensures b in OwnedBlocks(h') {
          var x :| x in h.nodes && h.nodes[x].owned && h.nodes[x].data == b;
          assert x in h'.nodes && h'.nodes[x].owned;
        }
      }
    } else {
      SameOwnersConserved(h, h', given);
    }
  }

  /** The old data of a flattened buffer goes if it was its own, and stays with the
      caller if not. */
  lemma FlattenConserved(h: Heap, given: set<Ptr>, p: Ptr, block: Ptr, bytes: seq<byte>)
    requires Conserved(h, given) && Chained(h) && SoleOwners(h) && IsHead(h, p) && block !in h.blocks
    ensures Conserved(Flattened(h, p, block, bytes), given)
  {
    var h' := Flattened(h, p, block, bytes);
    var rest := OthersOwn(h, p);
    OwnedSplit(h, p);
    assert OthersOwn(h', p) == rest by {
      assert forall x :: x != p ==> (x in h'.nodes <==> x in h.nodes);
    }
    OwnedSplit(h', p);
  }

  /** What the nodes other than `p` own. */
  function OthersOwn(h: Heap, p: Ptr): set<Ptr> {
    set x | x in h.nodes && x != p && h.nodes[x].owned :: h.nodes[x].data
  }

  lemma OwnedSplit(h: Heap, p: Ptr)
    requires p in h.nodes
    ensures OwnedBlocks(h) == OthersOwn(h, p) + if h.nodes[p].owned then {h.nodes[p].data} else {}
    ensures Chained(h) && SoleOwners(h) && IsHead(h, p) ==> h.nodes[p].data !in OthersOwn(h, p)
  {
    forall b | b in OwnedBlocks(h)
      ensures b in OthersOwn(h, p) + if h.nodes[p].owned then {h.nodes[p].data} else {}
    {
      var x :| x in h.nodes && h.nodes[x].owned && h.nodes[x].data == b;
    }
    if Chained(h) && SoleOwners(h) && IsHead(h, p) {
      forall x | x in h.nodes && x != p && h.nodes[x].owned ensures h.nodes[x].data != h.nodes[p].data {
        assert IsHead(h, x);
      }
    }
  }

  /** With the last reference to a node its own block goes, and no other. */
  lemma RemoveConserved(h: Heap, given: set<Ptr>, p: Ptr)
    requires Conserved(h, given) && Chained(h) && SoleOwners(h) && p in h.nodes
    ensures Conserved(Removed(h, p), given)
  {
    var h' := Removed(h, p);
    OwnersAreHeads(h, p);
    OwnedSplit(h, p);
    assert OwnedBlocks(h') == OthersOwn(h, p) by {
      forall b | b in OthersOwn(h, p) ensures b in OwnedBlocks(h') {
        var x :| x in h.nodes && x != p && h.nodes[x].owned && h.nodes[x].data == b;
        assert x in h'.nodes;
      }
    }
  }

  /** The head whose data `logdb_buffer_data` returns. */
  function DataHead(h: Heap, p: Ptr): Ptr {
    if IsCopy(h, p) then h.nodes[p].orig.value else p
  }

  /** Every buffer of the first heap is in the second, with the same bytes. */
  ghost predicate SameContents(h: Heap, rank: Rank, h': Heap, rank': Rank) {
    && WellFormed(h, rank) && WellFormed(h', rank')
    && forall x :: x in h.nodes ==> x in h'.nodes && Content(h', rank', x) == Content(h, rank, x)
  }

  lemma SameContentsTransitive(h1: Heap, rank1: Rank, h2: Heap, rank2: Rank, h3: Heap, rank3: Rank)
    requires SameContents(h1, rank1, h2, rank2) && SameContents(h2, rank2, h3, rank3)
    ensures SameContents(h1, rank1, h3, rank3)
  {
  }

  lemma SameContentsBack(h1: Heap, rank1: Rank, h2: Heap, rank2: Rank)
    requires SameContents(h1, rank1, h2, rank2) && h2.nodes.Keys <= h1.nodes.Keys
    ensures SameContents(h2, rank2, h1, rank1)
  {
  }

  /** What is left of `h` differs in its reference counts only. */
  predicate Survivors(h': Heap, h: Heap) {
    forall x :: x in h'.nodes ==> x in h.nodes && h'.nodes[x] == h.nodes[x].(refcnt := h'.nodes[x].refcnt)
  }

  lemma SurvivorsTransitive(h3: Heap, h2: Heap, h1: Heap)
    requires Survivors(h3, h2) && Survivors(h2, h1)
    ensures Survivors(h3, h1)
  {
  }

  ghost function LiveRest(h: Heap, rank: Rank, p: Option<Ptr>): seq<byte> {
    if p.Some? then Live(h, rank, p.value) else []
  }

  /** The heap is in order and `q` can be reached from `p`. */
  predicate Leads(h: Heap, rank: Rank, p: Ptr, q: Ptr) {
    WellFormed(h, rank) && p in h.nodes && Reaches(h, rank, p, q)
  }

  /** What flattening may touch: data, length and next of heads below `bound`. */
  predicate Steady(h: Heap, h': Heap, rank: Rank, bound: nat) {
    && h'.nodes.Keys == h.nodes.Keys
    && forall x :: x in h.nodes ==> SteadyNode(h, h', rank, bound, x)
  }

  predicate SteadyNode(h: Heap, h': Heap, rank: Rank, bound: nat, x: Ptr)
    requires x in h.nodes
  {
    && x in h'.nodes
    && h'.nodes[x].orig == h.nodes[x].orig && h'.nodes[x].refcnt == h.nodes[x].refcnt
    && (h.nodes[x].orig.Some? || (x in rank && rank[x] >= bound) ==> h'.nodes[x] == h.nodes[x])
  }

  lemma SteadyTransitive(h1: Heap, h2: Heap, h3: Heap, rank: Rank, bound1: nat, bound2: nat, bound: nat)
    requires Steady(h1, h2, rank, bound1) && Steady(h2, h3, rank, bound2) && bound1 <= bound && bound2 <= bound
    ensures Steady(h1, h3, rank, bound)
  {
    forall x | x in h1.nodes ensures SteadyNode(h1, h3, rank, bound, x) {
      assert SteadyNode(h1, h2, rank, bound1, x) && SteadyNode(h2, h3, rank, bound2, x);
    }
  }

  /** The last segment of a buffer. */
  function LastOf(h: Heap, rank: Rank, p: Ptr): (last: Ptr)
    ensures p in h.nodes ==> last in h.nodes
  {
    if WellFormed(h, rank) && p in h.nodes then Tail(h, rank, p) else p
  }

  /** The bytes of a live buffer when `extra` comes behind segment `last`. */
  ghost function Grown(h: Heap, rank: Rank, x: Ptr, last: Ptr, extra: seq<byte>): seq<byte> {
    if WellFormed(h, rank) && x in h.nodes then Extended(h, rank, x, last, extra) else []
  }

  /** The bytes of a live buffer. */
  ghost function Live(h: Heap, rank: Rank, p: Ptr): seq<byte> {
    if WellFormed(h, rank) && p in h.nodes then Content(h, rank, p) else []
  }

  /** Old nodes keep their links and bytes; new ones are unlinked heads. */
  ghost predicate Grows(h: Heap, rank: Rank, h': Heap, rank': Rank) {
    && (forall x :: x in h.nodes ==>
          x in h'.nodes && h'.nodes[x] == h.nodes[x].(refcnt := h'.nodes[x].refcnt)
          && (x in rank ==> x in rank' && rank'[x] == rank[x]))
    && (forall x :: x in h'.nodes && x !in h.nodes ==> NewHead(h', rank', x))
    && (forall b :: b in h.blocks ==> SameBlock(h, h', b))
  }

  predicate NewHead(h: Heap, rank: Rank, x: Ptr) {
    x in h.nodes && x in rank && h.nodes[x].orig.None? && h.nodes[x].next.None? && OwnBytesLive(h, h.nodes[x])
  }

  lemma GrowsRanked(h: Heap, rank: Rank, h': Heap, rank': Rank)
    requires Ranked(h, rank) && Grows(h, rank, h', rank')
    ensures Ranked(h', rank')
  {
    forall x | x in h'.nodes
      ensures x in rank'
      ensures h'.nodes[x].orig.Some? ==> Below(h', rank', h'.nodes[x].orig.value, x)
      ensures h'.nodes[x].next.Some? ==> Below(h', rank', h'.nodes[x].next.value, x)
    {
      if x in h.nodes {
        assert h.nodes[x].orig.Some? ==> Below(h, rank, h.nodes[x].orig.value, x);
        assert h.nodes[x].next.Some? ==> Below(h, rank, h.nodes[x].next.value, x);
      } else {
        assert NewHead(h', rank', x);
      }
    }
  }

  lemma GrowsChained(h: Heap, rank: Rank, h': Heap, rank': Rank)
    requires Chained(h) && Unshared(h) && Grows(h, rank, h', rank')
    ensures Chained(h') && Unshared(h')
  {
    forall x | x in h'.nodes
      ensures h'.nodes[x].orig.Some? ==> IsHead(h', h'.nodes[x].orig.value)
      ensures h'.nodes[x].next.Some? ==> IsCopy(h', h'.nodes[x].next.value)
      ensures h'.nodes[x].owned ==> h'.nodes[x].orig.None?
    {
      if x in h.nodes {
        assert h.nodes[x].orig.Some? ==> IsHead(h, h.nodes[x].orig.value);
        assert h.nodes[x].next.Some? ==> IsCopy(h, h.nodes[x].next.value);
      } else {
        assert NewHead(h', rank', x);
      }
    }
    forall x, y | x in h'.nodes && y in h'.nodes && x != y && h'.nodes[x].next.Some?
      ensures h'.nodes[x].next != h'.nodes[y].next
    {
      assert x in h.nodes || NewHead(h', rank', x);
      assert y in h.nodes || NewHead(h', rank', y);
    }
  }

  lemma GrowsReadable(h: Heap, rank: Rank, h': Heap, rank': Rank)
    requires Readable(h) && Grows(h, rank, h', rank')
    ensures Readable(h') && Agree(h, h')
  {
    forall x | x in h'.nodes && h'.nodes[x].orig.None? ensures OwnBytesLive(h', h'.nodes[x]) {
      if x in h.nodes {
        assert OwnBytesLive(h, h.nodes[x]) && SameBlock(h, h', h.nodes[x].data);
      } else {
        assert NewHead(h', rank', x);
      }
    }
    forall x | IsHead(h, x) && x in h'.nodes ensures SameBlock(h, h', h.nodes[x].data) {
      assert OwnBytesLive(h, h.nodes[x]);
    }
  }

  lemma GrowsOk(h: Heap, rank: Rank, h': Heap, rank': Rank)
    requires WellFormed(h, rank) && Grows(h, rank, h', rank')
    ensures WellFormed(h', rank') && SameContents(h, rank, h', rank')
  {
    GrowsRanked(h, rank, h', rank');
    GrowsChained(h, rank, h', rank');
    GrowsReadable(h, rank, h', rank');
    forall x | x in h.nodes ensures x in h'.nodes && Content(h', rank', x) == Content(h, rank, x) {
      ContentAgrees(h, rank, h', rank', x);
    }
  }

  function WithBlock(h: Heap, block: Ptr, bytes: seq<byte>): Heap {
    h.(blocks := h.blocks[block := bytes])
  }

  lemma WithBlockOk(h: Heap, rank: Rank, refs: multiset<Ptr>, limit: Ptr, bytes: seq<byte>)
    requires HeapOk(h, rank, refs, limit)
    ensures HeapOk(WithBlock(h, limit, bytes), rank, refs, limit + 1)
    ensures SameContents(h, rank, WithBlock(h, limit, bytes), rank)
  {
    var h' := WithBlock(h, limit, bytes);
    GrowsOk(h, rank, h', rank);
    WithBlockCounted(h, refs, h');
    WithBlockSoleOwners(h, h');
  }

  lemma WithBlockCounted(h: Heap, refs: multiset<Ptr>, h': Heap)
    requires Counted(h, refs) && h'.nodes == h.nodes
    ensures Counted(h', refs)
  {
    forall p | p in h'.nodes ensures CountOf(h', refs, p) {
      assert CountOf(h, refs, p) && Origs(h', p) == Origs(h, p) && Nexts(h', p) == Nexts(h, p);
    }
  }

  lemma WithBlockSoleOwners(h: Heap, h': Heap)
    requires SoleOwners(h) && h'.nodes == h.nodes
    ensures SoleOwners(h')
  {
    forall x, y | IsHead(h', x) && IsHead(h', y) && x != y && h'.nodes[x].owned
      ensures h'.nodes[x].data != h'.nodes[y].data
    {
      assert IsHead(h, x) && IsHead(h, y);
    }
  }

  /** A block that a new head may point at: nobody else disposes of it. */
  ghost predicate Available(h: Heap, block: Ptr, len: nat, owned: bool) {
    && block in h.blocks && len <= |h.blocks[block]|
    && forall p :: IsHead(h, p) && (owned || h.nodes[p].owned) ==> h.nodes[p].data != block
  }

  function WithHead(h: Heap, p: Ptr, block: Ptr, len: nat, owned: bool): Heap {
    h.(nodes := h.nodes[p := Node(block, len, owned, None, None, 1)])
  }

  lemma WithHeadOk(h: Heap, rank: Rank, refs: multiset<Ptr>, limit: Ptr, block: Ptr, len: nat, owned: bool)
    requires HeapOk(h, rank, refs, limit) && Available(h, block, len, owned)
    ensures HeapOk(WithHead(h, limit, block, len, owned), rank[limit := 0], refs + multiset{limit}, limit + 1)
    ensures SameContents(h, rank, WithHead(h, limit, block, len, owned), rank[limit := 0])
    ensures Content(WithHead(h, limit, block, len, owned), rank[limit := 0], limit) == h.blocks[block][..len]
  {
    var h', rank' := WithHead(h, limit, block, len, owned), rank[limit := 0];
    WithHeadGrows(h, rank, limit, block, len, owned);
    hide WellFormed, SoleOwners, Counted, Available, Grows;
    GrowsOk(h, rank, h', rank');
    WithHeadSoleOwners(h, limit, block, len, owned);
    LinksAreLive(h, rank);
    WithHeadCounted(h, refs, limit, block, len, owned);
    ContentOfHead(h', rank', limit);
  }

  lemma WithHeadGrows(h: Heap, rank: Rank, limit: Ptr, block: Ptr, len: nat, owned: bool)
    requires limit !in h.nodes && Readable(h) && Available(h, block, len, owned)
    ensures Grows(h, rank, WithHead(h, limit, block, len, owned), rank[limit := 0])
  {
    assert NewHead(WithHead(h, limit, block, len, owned), rank[limit := 0], limit);
  }

  lemma ContentOfHead(h: Heap, rank: Rank, p: Ptr)
    requires WellFormed(h, rank) && IsHead(h, p) && h.nodes[p].next.None?
    ensures h.nodes[p].data in h.blocks && h.nodes[p].len <= |h.blocks[h.nodes[p].data]|
    ensures Content(h, rank, p) == h.blocks[h.nodes[p].data][..h.nodes[p].len]
  {
    assert OwnBytesLive(h, h.nodes[p]);
    assert Content(h, rank, p) == Segment(h, rank, p) + [];
  }

  lemma WithHeadSoleOwners(h: Heap, p: Ptr, block: Ptr, len: nat, owned: bool)
    requires SoleOwners(h) && p !in h.nodes && Available(h, block, len, owned)
    ensures SoleOwners(WithHead(h, p, block, len, owned))
  {
    var h' := WithHead(h, p, block, len, owned);
    forall x, y | IsHead(h', x) && IsHead(h', y) && x != y && h'.nodes[x].owned
      ensures h'.nodes[x].data != h'.nodes[y].data
    {
      assert x != p ==> IsHead(h, x);
      assert y != p ==> IsHead(h, y);
    }
  }

  lemma WithHeadCounted(h: Heap, refs: multiset<Ptr>, p: Ptr, block: Ptr, len: nat, owned: bool)
    requires Counted(h, refs) && p !in h.nodes
    requires forall x :: x in h.nodes ==> h.nodes[x].orig != Some(p) && h.nodes[x].next != Some(p)
    ensures Counted(WithHead(h, p, block, len, owned), refs + multiset{p})
  {
    var h', refs' := WithHead(h, p, block, len, owned), refs + multiset{p};
    assert refs[p] == 0;
    forall x | x in h'.nodes ensures CountOf(h', refs', x) {
      assert Origs(h', x) == Origs(h, x) && Nexts(h', x) == Nexts(h, x);
      if x == p {
        assert Origs(h, p) == {} && Nexts(h, p) == {};
      } else {
        assert CountOf(h, refs, x);
      }
    }
  }

  lemma WithCountOk(h: Heap, rank: Rank, refs: multiset<Ptr>, limit: Ptr, p: Ptr, refcnt: int, refs': multiset<Ptr>)
    requires HeapOk(h, rank, refs, limit) && p in h.nodes && refcnt > 0
    requires forall x :: x != p ==> refs'[x] == refs[x]
    requires refcnt - refs'[p] == h.nodes[p].refcnt - refs[p]
    ensures HeapOk(WithCount(h, p, refcnt), rank, refs', limit)
    ensures SameContents(h, rank, WithCount(h, p, refcnt), rank)
  {
    hide WellFormed, SoleOwners, Counted, Grows, SameContents;
    RetainCounted(h, refs, p, refs', refcnt);
    WithCountGrows(h, rank, p, refcnt);
    GrowsOk(h, rank, WithCount(h, p, refcnt), rank);
    WithCountSoleOwners(h, p, refcnt);
  }

  lemma WithCountGrows(h: Heap, rank: Rank, p: Ptr, refcnt: int)
    requires p in h.nodes && WellFormed(h, rank)
    ensures Grows(h, rank, WithCount(h, p, refcnt), rank)
  {
  }

  lemma WithCountSoleOwners(h: Heap, p: Ptr, refcnt: int)
    requires SoleOwners(h) && p in h.nodes
    ensures SoleOwners(WithCount(h, p, refcnt))
  {
    var h' := WithCount(h, p, refcnt);
    forall x, y | IsHead(h', x) && IsHead(h', y) && x != y && h'.nodes[x].owned
      ensures h'.nodes[x].data != h'.nodes[y].data
    {
      assert IsHead(h, x) && IsHead(h, y);
    }
  }

  lemma LinksAreLive(h: Heap, rank: Rank)
    requires Ranked(h, rank)
    ensures forall x :: x in h.nodes ==>
              && (h.nodes[x].orig.Some? ==> h.nodes[x].orig.value in h.nodes)
              && (h.nodes[x].next.Some? ==> h.nodes[x].next.value in h.nodes)
  {
    forall x | x in h.nodes
      ensures h.nodes[x].orig.Some? ==> h.nodes[x].orig.value in h.nodes
      ensures h.nodes[x].next.Some? ==> h.nodes[x].next.value in h.nodes
    {
      assert h.nodes[x].orig.Some? ==> Below(h, rank, h.nodes[x].orig.value, x);
      assert h.nodes[x].next.Some? ==> Below(h, rank, h.nodes[x].next.value, x);
    }
  }

  lemma AppendOk(h: Heap, rank: Rank, refs: multiset<Ptr>, limit: Ptr, tail: Ptr, b2: Ptr)
    requires HeapOk(h, rank, refs, limit) && tail in h.nodes && h.nodes[tail].next.None? && IsHead(h, b2)
    requires !Reaches(h, rank, b2, tail)
    ensures HeapOk(Appended(h, tail, b2, limit), AppendRank(h, rank, tail, b2, limit), refs, limit + 1)
  {
    hide SoleOwners, Counted;
    AppendKeepsForm(h, rank, tail, b2, limit);
    AppendSoleOwners(h, tail, b2, limit);
    LinksAreLive(h, rank);
    AppendCounted(h, refs, tail, b2, limit);
  }

  lemma AppendAll(h: Heap, rank: Rank, refs: multiset<Ptr>, limit: Ptr, last: Ptr, b2: Ptr, given: set<Ptr>)
    requires HeapOk(h, rank, refs, limit) && Conserved(h, given) && last in h.nodes && h.nodes[last].next.None?
    requires IsHead(h, b2) && !Leads(h, rank, b2, last)
    ensures var h', rank' := Appended(h, last, b2, limit), AppendRank(h, rank, last, b2, limit);
            HeapOk(h', rank', refs, limit + 1) && Conserved(h', given)
  {
    OkFacts(h, rank, refs, limit);
    hide HeapOk, Conserved, WellFormed, AppendRank, SameOwners;
    AppendSameOwners(h, last, b2, limit);
    SameOwnersConserved(h, Appended(h, last, b2, limit), given);
    AppendOk(h, rank, refs, limit, last, b2);
  }

  lemma AppendSameOwners(h: Heap, last: Ptr, b2: Ptr, c: Ptr)
    requires last in h.nodes && b2 in h.nodes && c !in h.nodes
    ensures SameOwners(h, Appended(h, last, b2, c)) && Appended(h, last, b2, c).blocks == h.blocks
  {
  }

  lemma AppendContents(h: Heap, rank: Rank, limit: Ptr, b1: Ptr, tail: Ptr, b2: Ptr, h': Heap, rank': Rank)
    requires WellFormed(h, rank) && IsHead(h, b1) && IsHead(h, b2) && tail == Tail(h, rank, b1)
    requires limit !in h.nodes && !Reaches(h, rank, b2, tail)
    requires h' == Appended(h, tail, b2, limit) && rank' == AppendRank(h, rank, tail, b2, limit)
    requires WellFormed(h', rank')
    ensures Content(h', rank', b1) == Content(h, rank, b1) + Content(h, rank, b2)
    ensures forall x :: IsHead(h, x) && !Reaches(h, rank, x, b1) ==> Content(h', rank', x) == Content(h, rank, x)
  {
    ContentOfAppended(h, rank, tail, b2, limit, b1);
    forall x | IsHead(h, x) && !Reaches(h, rank, x, b1)
      ensures Content(h', rank', x) == Content(h, rank, x)
    {
      HeadReachesTail(h, rank, x, b1);
      ContentElsewhere(h, rank, tail, b2, limit, x);
    }
  }

  lemma AppendSoleOwners(h: Heap, tail: Ptr, b2: Ptr, c: Ptr)
    requires SoleOwners(h) && tail in h.nodes && b2 in h.nodes && c !in h.nodes
    ensures SoleOwners(Appended(h, tail, b2, c))
  {
    var h' := Appended(h, tail, b2, c);
    forall x, y | IsHead(h', x) && IsHead(h', y) && x != y && h'.nodes[x].owned
      ensures h'.nodes[x].data != h'.nodes[y].data
    {
      assert IsHead(h, x) && IsHead(h, y);
    }
  }

  lemma FlattenOk(h: Heap, rank: Rank, refs: multiset<Ptr>, limit: Ptr, p: Ptr, h': Heap)
    requires HeapOk(h, rank, refs, limit) && IsHead(h, p) && h.nodes[p].next.Some?
    requires h' == Flattened(h, p, limit, Content(h, rank, p))
    ensures HeapOk(h', rank, refs + multiset{h.nodes[p].next.value}, limit + 1)
    ensures SameContents(h, rank, h', rank)
  {
    var bytes := Content(h, rank, p);
    FlattenBelow(h, p, limit, bytes);
    hide WellFormed, SoleOwners, Counted, SameContents, Content, Flattened;
    FlattenKeepsForm(h, rank, p, limit, bytes);
    NextIsLive(h, rank, p);
    FlattenCounted(h, refs, p, limit, bytes);
    FlattenContents(h, rank, limit, p, h');
  }

  lemma FlattenAll(h: Heap, rank: Rank, refs: multiset<Ptr>, limit: Ptr, p: Ptr, given: set<Ptr>, bytes: seq<byte>)
    requires HeapOk(h, rank, refs, limit) && Conserved(h, given) && IsHead(h, p) && h.nodes[p].next.Some? && p in rank
    requires bytes == Live(h, rank, p)
    ensures var h' := Flattened(h, p, limit, bytes);
            && HeapOk(h', rank, refs + multiset{h.nodes[p].next.value}, limit + 1) && Conserved(h', given)
            && SameContents(h, rank, h', rank) && Steady(h, h', rank, rank[p] + 1) && limit !in h.blocks
  {
    OwnerFacts(h, rank, refs, limit);
    FlattenConserved(h, given, p, limit, bytes);
    FlattenOk(h, rank, refs, limit, p, Flattened(h, p, limit, bytes));
    FlattenSteady(h, rank, p, limit, bytes);
  }

  lemma FlattenBelow(h: Heap, p: Ptr, limit: Ptr, bytes: seq<byte>)
    requires p in h.nodes
    requires (forall x :: x in h.nodes ==> x < limit) && (forall b :: b in h.blocks ==> b < limit)
    ensures var h' := Flattened(h, p, limit, bytes);
            (forall x :: x in h'.nodes ==> x < limit + 1) && (forall b :: b in h'.blocks ==> b < limit + 1)
  {
  }

  lemma NextIsLive(h: Heap, rank: Rank, p: Ptr)
    requires WellFormed(h, rank) && p in h.nodes && h.nodes[p].next.Some?
    ensures h.nodes[p].next.value in h.nodes
  {
    LinksAreLive(h, rank);
  }

  lemma FlattenContents(h: Heap, rank: Rank, limit: Ptr, p: Ptr, h': Heap)
    requires WellFormed(h, rank) && SoleOwners(h) && IsHead(h, p) && limit !in h.blocks
    requires h' == Flattened(h, p, limit, Content(h, rank, p)) && WellFormed(h', rank)
    ensures SameContents(h, rank, h', rank)
  {
    forall x | x in h.nodes ensures x in h'.nodes && Content(h', rank, x) == Content(h, rank, x) {
      FlattenKeepsContent(h, rank, p, limit, x);
    }
  }

  lemma RemoveOk(h: Heap, rank: Rank, refs: multiset<Ptr>, limit: Ptr, p: Ptr)
    requires HeapOk(h, rank, refs, limit) && p in refs && h.nodes[p].refcnt == 1
    ensures HeapOk(Removed(h, p), rank, refs - multiset{p} + LinksOf(h.nodes[p]), limit)
    ensures SameContents(Removed(h, p), rank, h, rank) && Survivors(Removed(h, p), h)
  {
    var h' := Removed(h, p);
    RemoveCounted(h, refs, p, h'.blocks);
    assert Unlinked(h, p) by {
      forall x | x in h.nodes ensures h.nodes[x].orig != Some(p) && h.nodes[x].next != Some(p) {
        assert x !in Origs(h, p) && x !in Nexts(h, p);
      }
    }
    RemoveKeepsForm(h, rank, p);
    forall x | x in h'.nodes ensures Content(h', rank, x) == Content(h, rank, x) {
      ContentAgrees(h, rank, h', rank, x);
    }
  }

  /** What an operation may rely on at a node. */
  lemma NodeFacts(h: Heap, rank: Rank, refs: multiset<Ptr>, limit: Ptr, p: Ptr)
    requires HeapOk(h, rank, refs, limit) && (p in h.nodes || p in refs)
    ensures p in h.nodes && p in rank && limit !in h.nodes && WellFormed(h, rank)
    ensures var n := h.nodes[p];
            && (n.orig.Some? ==> Below(h, rank, n.orig.value, p) && IsHead(h, n.orig.value))
            && (n.next.Some? ==> Below(h, rank, n.next.value, p) && IsCopy(h, n.next.value))
            && (n.orig.None? ==> OwnBytesLive(h, n))
            && (n.owned ==> n.orig.None?)
            && CountOf(h, refs, p)
  {
  }

  lemma ContentOfNode(h: Heap, rank: Rank, p: Ptr)
    requires WellFormed(h, rank) && p in h.nodes
    ensures Live(h, rank, p) == Segment(h, rank, p) + Rest(h, rank, h.nodes[p].next)
    ensures h.nodes[p].orig.Some? ==> Segment(h, rank, p) == Live(h, rank, h.nodes[p].orig.value)
  {
  }

  lemma ToTail(h: Heap, rank: Rank, b1: Ptr, b2: Ptr)
    requires WellFormed(h, rank) && IsHead(h, b1) && IsHead(h, b2)
    ensures Leads(h, rank, b2, Tail(h, rank, b1)) <==> Leads(h, rank, b2, b1)
  {
    HeadReachesTail(h, rank, b2, b1);
  }

  lemma Unchanged(h: Heap, rank: Rank, bound: nat)
    requires WellFormed(h, rank)
    ensures SameContents(h, rank, h, rank) && Steady(h, h, rank, bound)
  {
    forall x | x in h.nodes ensures SteadyNode(h, h, rank, bound, x) {}
  }

  lemma LiveSame(h: Heap, rank: Rank, h': Heap, p: Option<Ptr>)
    requires SameContents(h, rank, h', rank) && (p.Some? ==> p.value in h.nodes)
    ensures LiveRest(h', rank, p) == LiveRest(h, rank, p)
  {
  }

  /** The position of the loop that gathers buffer `p`: its chain is not touched. */
  predicate OnChain(h0: Heap, h: Heap, rank: Rank, p: Ptr, cur: Ptr) {
    && cur in h0.nodes && cur in h.nodes && h.nodes[cur] == h0.nodes[cur]
    && cur in rank && p in rank && rank[cur] <= rank[p] && (cur == p || IsCopy(h0, cur))
  }

  lemma ChainStep(h0: Heap, h1: Heap, h2: Heap, rank: Rank, p: Ptr, cur: Ptr)
    requires WellFormed(h0, rank) && SameContents(h0, rank, h1, rank) && SameContents(h1, rank, h2, rank)
    requires p in rank && cur in rank && rank[cur] <= rank[p]
    requires Steady(h0, h1, rank, rank[p]) && Steady(h1, h2, rank, rank[cur]) && OnChain(h0, h1, rank, p, cur)
    ensures SameContents(h0, rank, h2, rank) && Steady(h0, h2, rank, rank[p])
    ensures h2.nodes[cur] == h0.nodes[cur]
    ensures h0.nodes[cur].next.Some? ==>
              OnChain(h0, h2, rank, p, h0.nodes[cur].next.value) && rank[h0.nodes[cur].next.value] < rank[cur]
    ensures LiveRest(h1, rank, h0.nodes[cur].next) == LiveRest(h0, rank, h0.nodes[cur].next)
    ensures Live(h1, rank, cur) == Live(h0, rank, cur)
  {
    SteadyTransitive(h0, h1, h2, rank, rank[p], rank[cur], rank[p]);
    SameContentsTransitive(h0, rank, h1, rank, h2, rank);
    assert SteadyNode(h1, h2, rank, rank[cur], cur);
    if h0.nodes[cur].next.Some? {
      var next := h0.nodes[cur].next.value;
      assert Below(h0, rank, next, cur) && IsCopy(h0, next);
      assert SteadyNode(h0, h2, rank, rank[p], next);
    }
    LiveSame(h0, rank, h1, h0.nodes[cur].next);
    LiveSame(h0, rank, h1, Some(cur));
  }

  lemma AppendSetup(h: Heap, rank: Rank, refs: multiset<Ptr>, limit: Ptr, b1: Ptr, b2: Ptr)
    requires HeapOk(h, rank, refs, limit) && IsHead(h, b1) && IsHead(h, b2) && !Leads(h, rank, b2, b1)
    ensures var last := LastOf(h, rank, b1);
            && WellFormed(h, rank) && limit !in h.nodes && last == Tail(h, rank, b1) && !Reaches(h, rank, b2, last)
            && WellFormed(Appended(h, last, b2, limit), AppendRank(h, rank, last, b2, limit))
            && forall x :: x in h.nodes ==> x in Appended(h, last, b2, limit).nodes
  {
    hide AppendRank;
    ToTail(h, rank, b1, b2);
    AppendOk(h, rank, refs, limit, LastOf(h, rank, b1), b2);
  }

  lemma AppendSeen(h: Heap, rank: Rank, refs: multiset<Ptr>, limit: Ptr, b1: Ptr, last: Ptr, b2: Ptr, h': Heap,
                   rank': Rank)
    requires HeapOk(h, rank, refs, limit) && IsHead(h, b1) && IsHead(h, b2) && last == LastOf(h, rank, b1)
    requires !Leads(h, rank, b2, b1)
    requires h' == Appended(h, last, b2, limit) && rank' == AppendRank(h, rank, last, b2, limit)
    ensures Live(h', rank', b1) == Live(h, rank, b1) + Live(h, rank, b2)
    ensures forall x :: IsHead(h, x) && !Leads(h, rank, x, b1) ==> Live(h', rank', x) == Live(h, rank, x)
  {
    hide HeapOk, Appended, AppendRank, Unshared, Readable, Chained;
    AppendSetup(h, rank, refs, limit, b1, b2);
    AppendContents(h, rank, limit, b1, last, b2, h', rank');
  }

  /** What everyone sees after an append. */
  lemma AppendGrows(h: Heap, rank: Rank, refs: multiset<Ptr>, limit: Ptr, b1: Ptr, b2: Ptr, h': Heap,
                    rank': Rank, x: Ptr)
    requires HeapOk(h, rank, refs, limit) && IsHead(h, b1) && IsHead(h, b2) && !Leads(h, rank, b2, b1)
    requires h' == Appended(h, LastOf(h, rank, b1), b2, limit)
    requires rank' == AppendRank(h, rank, LastOf(h, rank, b1), b2, limit)
    requires x in h.nodes
    ensures Live(h', rank', x) == Grown(h, rank, x, LastOf(h, rank, b1), Live(h, rank, b2))
  {
    hide HeapOk, Appended, AppendRank, Unshared, Readable, Chained;
    AppendSetup(h, rank, refs, limit, b1, b2);
    ContentAfterAppend(h, rank, LastOf(h, rank, b1), b2, limit, x);
  }

  /** Every buffer has got `extra` wherever it shares segment `last`. */
  ghost predicate AllGrown(h: Heap, rank: Rank, last: Ptr, extra: seq<byte>, h': Heap, rank': Rank) {
    forall x :: x in h.nodes ==> Live(h', rank', x) == Grown(h, rank, x, last, extra)
  }

  lemma AppendAllGrown(h: Heap, rank: Rank, refs: multiset<Ptr>, limit: Ptr, b1: Ptr, b2: Ptr, h': Heap, rank': Rank)
    requires HeapOk(h, rank, refs, limit) && IsHead(h, b1) && IsHead(h, b2) && !Leads(h, rank, b2, b1)
    requires h' == Appended(h, LastOf(h, rank, b1), b2, limit)
    requires rank' == AppendRank(h, rank, LastOf(h, rank, b1), b2, limit)
    ensures AllGrown(h, rank, LastOf(h, rank, b1), Live(h, rank, b2), h', rank')
  {
    hide HeapOk, Leads, Live, Grown, LastOf, Appended, AppendRank;
    forall x | x in h.nodes
      ensures Live(h', rank', x) == Grown(h, rank, x, LastOf(h, rank, b1), Live(h, rank, b2))
    {
      AppendGrows(h, rank, refs, limit, b1, b2, h', rank', x);
    }
  }

  /** The length of every buffer fits 32 bits. */
  ghost predicate AllSmall(h: Heap, rank: Rank) {
    forall x :: IsHead(h, x) ==> |Live(h, rank, x)| < U32_LIMIT
  }

  /** A buffer that shares `last` has room for `size` more bytes each time it does. */
  ghost predicate HasRoomFor(h: Heap, rank: Rank, x: Ptr, last: Ptr, size: nat) {
    WellFormed(h, rank) && x in h.nodes && Reaches(h, rank, x, last) ==>
      |Content(h, rank, x)| + Visits(h, rank, x, last) * size < U32_LIMIT
  }

  /** The code checks the two buffers it is given. What keeps all buffers within
      32 bits is exactly that each one that shares the first has room, as often as
      it shares it. */
  lemma AppendKeepsAllSmallExactly(h: Heap, rank: Rank, refs: multiset<Ptr>, limit: Ptr, b1: Ptr, b2: Ptr, h': Heap,
                                   rank': Rank)
    requires HeapOk(h, rank, refs, limit) && IsHead(h, b1) && IsHead(h, b2) && !Leads(h, rank, b2, b1)
    requires h' == Appended(h, LastOf(h, rank, b1), b2, limit)
    requires rank' == AppendRank(h, rank, LastOf(h, rank, b1), b2, limit)
    requires AllSmall(h, rank)
    ensures AllSmall(h', rank')
            <==> forall x :: IsHead(h, x) ==> HasRoomFor(h, rank, x, LastOf(h, rank, b1), |Live(h, rank, b2)|)
  {
    var last, size := LastOf(h, rank, b1), |Live(h, rank, b2)|;
    OkFacts(h, rank, refs, limit);
    ToTail(h, rank, b1, b2);
    hide HeapOk, WellFormed, AppendRank;
    HeadsAfterAppend(h, last, b2, limit);
    forall x | IsHead(h, x)
      ensures |Live(h', rank', x)| < U32_LIMIT <==> HasRoomFor(h, rank, x, last, size)
    {
      AppendGrows(h, rank, refs, limit, b1, b2, h', rank', x);
      GrownLength(h, rank, x, last, Live(h, rank, b2));
      assert |Live(h, rank, x)| < U32_LIMIT;
    }
  }

  lemma HeadsAfterAppend(h: Heap, tail: Ptr, b2: Ptr, c: Ptr)
    requires tail in h.nodes && b2 in h.nodes && c !in h.nodes
    ensures forall x :: IsHead(Appended(h, tail, b2, c), x) <==> IsHead(h, x)
  {
  }

  lemma GrownLength(h: Heap, rank: Rank, x: Ptr, last: Ptr, extra: seq<byte>)
    requires WellFormed(h, rank) && x in h.nodes
    ensures |Grown(h, rank, x, last, extra)|
            == |Live(h, rank, x)| + if Reaches(h, rank, x, last) then Visits(h, rank, x, last) * |extra| else 0
  {
    ExtendedLength(h, rank, x, last, extra);
    VisitsOnlyIfReached(h, rank, x, last);
  }

  lemma OkFacts(h: Heap, rank: Rank, refs: multiset<Ptr>, limit: Ptr)
    requires HeapOk(h, rank, refs, limit)
    ensures WellFormed(h, rank) && limit !in h.nodes && limit !in h.blocks
  {
  }

  lemma OwnerFacts(h: Heap, rank: Rank, refs: multiset<Ptr>, limit: Ptr)
    requires HeapOk(h, rank, refs, limit)
    ensures Chained(h) && SoleOwners(h) && limit !in h.nodes && limit !in h.blocks
  {
  }

  lemma FlattenSteady(h: Heap, rank: Rank, p: Ptr, block: Ptr, bytes: seq<byte>)
    requires IsHead(h, p) && p in rank
    ensures Steady(h, Flattened(h, p, block, bytes), rank, rank[p] + 1)
  {
  }

  lemma SteadyWider(h: Heap, h': Heap, rank: Rank, bound: nat, wider: nat)
    requires Steady(h, h', rank, bound) && bound <= wider
    ensures Steady(h, h', rank, wider)
  {
    forall x | x in h.nodes ensures SteadyNode(h, h', rank, wider, x) { assert SteadyNode(h, h', rank, bound, x); }
  }

  lemma GatherDone(h: Heap, h1: Heap, rank: Rank, p: Ptr)
    requires IsHead(h, p) && p in rank && Steady(h, h1, rank, rank[p]) && SameContents(h, rank, h1, rank)
    ensures p in h1.nodes && h1.nodes[p] == h.nodes[p] && Live(h1, rank, p) == Live(h, rank, p)
  {
    assert SteadyNode(h, h1, rank, rank[p], p);
  }

  /** The references owed after a drop, given back one at a time. */
  lemma OwedLinks(before: multiset<Ptr>, p: Ptr, n: Node)
    requires p in before
    ensures var rest := before - multiset{p};
            var owed := rest + LinksOf(n);
            var later := if n.orig.Some? then owed - multiset{n.orig.value} else owed;
            && (n.orig.Some? ==> n.orig.value in owed)
            && (n.next.Some? ==> n.next.value in later && later - multiset{n.next.value} == rest)
            && (n.next.None? ==> later == rest)
  {
  }
}
