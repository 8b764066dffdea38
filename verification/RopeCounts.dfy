// Reference counts of the rope heap: what every operation conserves.
module RopeCounts {
  import opened Bytes
  import opened Rope

  function Origs(h: Heap, p: Ptr): set<Ptr> {
    set x | x in h.nodes && h.nodes[x].orig == Some(p)
  }

  function Nexts(h: Heap, p: Ptr): set<Ptr> {
    set x | x in h.nodes && h.nodes[x].next == Some(p)
  }

  /** A node's count is the references held outside the heap plus the links to it,
      and a node nobody refers to is gone. */
  predicate Counted(h: Heap, refs: multiset<Ptr>) {
    && (forall p :: p in refs ==> p in h.nodes)
    && (forall p :: p in h.nodes ==> CountOf(h, refs, p))
  }

  predicate CountOf(h: Heap, refs: multiset<Ptr>, p: Ptr)
    requires p in h.nodes
  {
    0 < h.nodes[p].refcnt == refs[p] + |Origs(h, p)| + |Nexts(h, p)|
  }

  lemma SetMinus<T>(s: set<T>, t: set<T>, x: T)
    requires x in s && t == s - {x}
    ensures |t| == |s| - 1
  {
  }

  lemma AppendOrigs(h: Heap, tail: Ptr, b2: Ptr, c: Ptr, p: Ptr)
    requires tail in h.nodes && b2 in h.nodes && c !in h.nodes && p != c
    ensures |Origs(Appended(h, tail, b2, c), p)| == |Origs(h, p)| + if p == b2 then 1 else 0
  {
    var h' := Appended(h, tail, b2, c);
    assert forall x :: x in h.nodes ==> x in h'.nodes && h'.nodes[x].orig == h.nodes[x].orig;
    if p == b2 {
      assert Origs(h', p) == Origs(h, p) + {c};
    } else {
      assert Origs(h', p) == Origs(h, p);
    }
  }

  lemma AppendNexts(h: Heap, tail: Ptr, b2: Ptr, c: Ptr, p: Ptr)
    requires tail in h.nodes && h.nodes[tail].next.None? && b2 in h.nodes && c !in h.nodes && p != c
    ensures |Nexts(Appended(h, tail, b2, c), p)| == |Nexts(h, p)|
  {
    assert Nexts(Appended(h, tail, b2, c), p) == Nexts(h, p);
  }

  lemma AppendCounted(h: Heap, refs: multiset<Ptr>, tail: Ptr, b2: Ptr, c: Ptr)
    requires Counted(h, refs) && tail in h.nodes && h.nodes[tail].next.None? && b2 in h.nodes && c !in h.nodes
    requires forall p :: p in h.nodes ==> h.nodes[p].orig != Some(c) && h.nodes[p].next != Some(c)
    ensures Counted(Appended(h, tail, b2, c), refs)
  {
    var h' := Appended(h, tail, b2, c);
    forall p | p in h'.nodes ensures CountOf(h', refs, p) {
      if p == c {
        assert refs[c] == 0;
        CopyCounted(h, tail, b2, c);
      } else {
        assert CountOf(h, refs, p);
        AppendOrigs(h, tail, b2, c, p);
        AppendNexts(h, tail, b2, c, p);
      }
    }
  }

  lemma CopyCounted(h: Heap, tail: Ptr, b2: Ptr, c: Ptr)
    requires tail in h.nodes && b2 in h.nodes && c !in h.nodes
    requires forall p :: p in h.nodes ==> h.nodes[p].orig != Some(c) && h.nodes[p].next != Some(c)
    ensures |Origs(Appended(h, tail, b2, c), c)| == 0 && |Nexts(Appended(h, tail, b2, c), c)| == 1
  {
    var h' := Appended(h, tail, b2, c);
    assert b2 != c && tail != c;
    assert Origs(h', c) == {};
    assert Nexts(h', c) == {tail};
  }

  lemma FlattenLinks(h: Heap, p: Ptr, block: Ptr, bytes: seq<byte>, x: Ptr)
    requires p in h.nodes
    ensures |Origs(Flattened(h, p, block, bytes), x)| == |Origs(h, x)|
    ensures |Nexts(Flattened(h, p, block, bytes), x)| == |Nexts(h, x)| - if h.nodes[p].next == Some(x) then 1 else 0
  {
    var h' := Flattened(h, p, block, bytes);
    assert Origs(h', x) == Origs(h, x);
    if h.nodes[p].next == Some(x) {
      assert Nexts(h', x) == Nexts(h, x) - {p};
      SetMinus(Nexts(h, x), Nexts(h', x), p);
    } else {
      assert Nexts(h', x) == Nexts(h, x);
    }
  }

  /** Flattening drops the chain without freeing it: the first dropped segment
      keeps a count that nobody will ever give back. */
  lemma FlattenCounted(h: Heap, refs: multiset<Ptr>, p: Ptr, block: Ptr, bytes: seq<byte>)
    requires Counted(h, refs) && p in h.nodes && h.nodes[p].next.Some? && h.nodes[p].next.value in h.nodes
    ensures Counted(Flattened(h, p, block, bytes), refs + multiset{h.nodes[p].next.value})
  {
    var h', q := Flattened(h, p, block, bytes), h.nodes[p].next.value;
    forall x | x in h'.nodes ensures CountOf(h', refs + multiset{q}, x) {
      assert CountOf(h, refs, x);
      FlattenLinks(h, p, block, bytes, x);
    }
  }

  function WithCount(h: Heap, p: Ptr, refcnt: int): Heap
    requires p in h.nodes
  {
    h.(nodes := h.nodes[p := h.nodes[p].(refcnt := refcnt)])
  }

  lemma WithCountLinks(h: Heap, p: Ptr, refcnt: int, x: Ptr)
    requires p in h.nodes
    ensures |Origs(WithCount(h, p, refcnt), x)| == |Origs(h, x)|
    ensures |Nexts(WithCount(h, p, refcnt), x)| == |Nexts(h, x)|
  {
    assert Origs(WithCount(h, p, refcnt), x) == Origs(h, x);
    assert Nexts(WithCount(h, p, refcnt), x) == Nexts(h, x);
  }

  /** One more or one less reference to `p` from outside. */
  lemma RetainCounted(h: Heap, refs: multiset<Ptr>, p: Ptr, refs': multiset<Ptr>, refcnt: int)
    requires Counted(h, refs) && p in h.nodes && refcnt > 0
    requires forall x :: x != p ==> refs'[x] == refs[x]
    requires refcnt - refs'[p] == h.nodes[p].refcnt - refs[p]
    ensures Counted(WithCount(h, p, refcnt), refs')
  {
    var h' := WithCount(h, p, refcnt);
    forall x | x in h'.nodes ensures CountOf(h', refs', x) {
      assert CountOf(h, refs, x);
      WithCountLinks(h, p, refcnt, x);
    }
    forall x | x in refs' ensures x in h'.nodes {
      if x != p { assert refs[x] > 0; }
    }
  }

  function LinksOf(n: Node): multiset<Ptr> {
    (if n.orig.Some? then multiset{n.orig.value} else multiset{})
    + (if n.next.Some? then multiset{n.next.value} else multiset{})
  }

  lemma RemoveLinks(h: Heap, p: Ptr, blocks: map<Ptr, seq<byte>>, x: Ptr)
    requires p in h.nodes
    ensures var n := h.nodes[p];
            && |Origs(Heap(h.nodes - {p}, blocks), x)| == |Origs(h, x)| - (if n.orig == Some(x) then 1 else 0)
            && |Nexts(Heap(h.nodes - {p}, blocks), x)| == |Nexts(h, x)| - (if n.next == Some(x) then 1 else 0)
  {
    var n, h' := h.nodes[p], Heap(h.nodes - {p}, blocks);
    assert Origs(h', x) == Origs(h, x) - {p};
    assert Nexts(h', x) == Nexts(h, x) - {p};
    if n.orig == Some(x) { SetMinus(Origs(h, x), Origs(h', x), p); } else { assert Origs(h', x) == Origs(h, x); }
    if n.next == Some(x) { SetMinus(Nexts(h, x), Nexts(h', x), p); } else { assert Nexts(h', x) == Nexts(h, x); }
  }

  /** The last reference goes: the node's own links become references to give back. */
  lemma RemoveCounted(h: Heap, refs: multiset<Ptr>, p: Ptr, blocks: map<Ptr, seq<byte>>)
    requires Counted(h, refs) && p in h.nodes && h.nodes[p].refcnt == 1 && p in refs
    requires h.nodes[p].orig != Some(p) && h.nodes[p].next != Some(p)
    requires h.nodes[p].orig.Some? ==> h.nodes[p].orig.value in h.nodes
    requires h.nodes[p].next.Some? ==> h.nodes[p].next.value in h.nodes
    ensures Origs(h, p) == {} && Nexts(h, p) == {}
    ensures Counted(Heap(h.nodes - {p}, blocks), refs - multiset{p} + LinksOf(h.nodes[p]))
  {
    assert CountOf(h, refs, p);
    var n, h', refs' := h.nodes[p], Heap(h.nodes - {p}, blocks), refs - multiset{p} + LinksOf(h.nodes[p]);
    forall x | x in h'.nodes ensures CountOf(h', refs', x) {
      assert CountOf(h, refs, x);
      RemoveLinks(h, p, blocks, x);
    }
  }
}
