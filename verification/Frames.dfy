// The buffers of the open transactions of one thread, in the rope heap.
module Frames {
  import opened Bytes
  import opened Layout
  import opened Rope
  import opened RopeCounts
  import opened RopeOps

  /** The references that the transactions hold. */
  function Refs(frames: seq<Option<Ptr>>): multiset<Ptr> {
    if frames == [] then multiset{}
    else Refs(frames[..|frames| - 1]) + RefOf(frames[|frames| - 1])
  }

  function RefOf(frame: Option<Ptr>): multiset<Ptr> {
    if frame.Some? then multiset{frame.value} else multiset{}
  }

  lemma RefsPush(frames: seq<Option<Ptr>>, frame: Option<Ptr>)
    ensures Refs(frames + [frame]) == Refs(frames) + RefOf(frame)
  {
    assert (frames + [frame])[..|frames|] == frames;
  }

  lemma RefsPop(frames: seq<Option<Ptr>>)
    requires frames != []
    ensures Refs(frames) == Refs(frames[..|frames| - 1]) + RefOf(frames[|frames| - 1])
  {
  }

  lemma {:induction false} RefsHold(frames: seq<Option<Ptr>>, i: nat)
    requires i < |frames| && frames[i].Some?
    ensures frames[i].value in Refs(frames)
  {
    if i < |frames| - 1 { RefsHold(frames[..|frames| - 1], i); }
  }

  /** Nobody but its transaction refers to the buffer. */
  predicate Private(h: Heap, p: Ptr) {
    IsHead(h, p) && h.nodes[p].refcnt == 1
  }

  ghost predicate FrameOk(h: Heap, rank: Rank, p: Ptr) {
    Private(h, p) && |Live(h, rank, p)| < U32_LIMIT
  }

  ghost predicate FramesOk(h: Heap, rank: Rank, frames: seq<Option<Ptr>>) {
    forall i :: 0 <= i < |frames| && frames[i].Some? ==> FrameOk(h, rank, frames[i].value)
  }

  /** The bytes of each transaction. */
  ghost function FrameBytes(h: Heap, rank: Rank, frames: seq<Option<Ptr>>): (r: seq<seq<byte>>)
    ensures |r| == |frames|
    ensures forall i :: 0 <= i < |frames| ==> r[i] == LiveRest(h, rank, frames[i])
  {
    seq(|frames|, i requires 0 <= i < |frames| => LiveRest(h, rank, frames[i]))
  }

  lemma PrivateHasNoLinks(h: Heap, rank: Rank, refs: multiset<Ptr>, limit: Ptr, p: Ptr)
    requires HeapOk(h, rank, refs, limit) && Private(h, p) && p in refs
    ensures refs[p] == 1 && Origs(h, p) == {} && Nexts(h, p) == {}
  {
    assert CountOf(h, refs, p);
  }

  lemma {:induction false} NobodyReaches(h: Heap, rank: Rank, p: Ptr, x: Ptr)
    requires Ranked(h, rank) && x in h.nodes && x != p && Origs(h, p) == {} && Nexts(h, p) == {}
    ensures !Reaches(h, rank, x, p)
    decreases rank[x]
  {
    var n := h.nodes[x];
    assert x !in Origs(h, p) && x !in Nexts(h, p);
    if n.orig.Some? { NobodyReaches(h, rank, p, n.orig.value); }
    if n.next.Some? { NobodyReaches(h, rank, p, n.next.value); }
  }

  /** A transaction's buffer can be appended to without closing a cycle or
      changing what anyone else sees. */
  lemma PrivateUnreached(h: Heap, rank: Rank, refs: multiset<Ptr>, limit: Ptr, p: Ptr)
    requires HeapOk(h, rank, refs, limit) && Private(h, p) && p in refs
    ensures forall x :: x != p ==> !Leads(h, rank, x, p)
  {
    PrivateHasNoLinks(h, rank, refs, limit, p);
    forall x: Ptr | x != p ensures !Leads(h, rank, x, p) {
      if x in h.nodes { NobodyReaches(h, rank, p, x); }
    }
  }

  /** Whoever holds a reference to a head still sees the same bytes. */
  ghost predicate SeesSame(refs: multiset<Ptr>, h: Heap, rank: Rank, h': Heap, rank': Rank) {
    forall x :: x in refs ==> IsHead(h', x) && Live(h', rank', x) == Live(h, rank, x)
  }

  ghost predicate Heads(h: Heap, refs: multiset<Ptr>) {
    forall x :: x in refs ==> IsHead(h, x)
  }

  /** A buffer that is not one of the transactions' was freed. */
  lemma FreeFrames(h: Heap, rank: Rank, refs: multiset<Ptr>, limit: Ptr, h': Heap, refs': multiset<Ptr>, limit': Ptr,
                   frames: seq<Option<Ptr>>, p: Ptr)
    requires HeapOk(h, rank, refs, limit) && HeapOk(h', rank, refs', limit')
    requires SameContents(h', rank, h, rank) && Survivors(h', h)
    requires Refs(frames) + multiset{p} <= refs && refs' == refs - multiset{p}
    requires FramesOk(h, rank, frames)
    ensures FramesOk(h', rank, frames) && FrameBytes(h', rank, frames) == FrameBytes(h, rank, frames)
  {
    hide HeapOk, SameContents, Survivors, Live;
    forall i | 0 <= i < |frames| && frames[i].Some?
      ensures FrameOk(h', rank, frames[i].value) && LiveRest(h', rank, frames[i]) == LiveRest(h, rank, frames[i])
    {
      var q := frames[i].value;
      RefsHold(frames, i);
      assert FrameOk(h, rank, q);
      PrivateHasNoLinks(h, rank, refs, limit, q);
      assert refs[q] >= Refs(frames)[q] + multiset{p}[q];
      FreePrivate(h, rank, refs, limit, h', refs', limit', q);
    }
    forall i | 0 <= i < |frames| ensures LiveRest(h', rank, frames[i]) == LiveRest(h, rank, frames[i]) {
      if frames[i].None? { assert LiveRest(h', rank, frames[i]) == []; }
    }
  }

  lemma FreePrivate(h: Heap, rank: Rank, refs: multiset<Ptr>, limit: Ptr, h': Heap, refs': multiset<Ptr>, limit': Ptr,
                    p: Ptr)
    requires HeapOk(h, rank, refs, limit) && HeapOk(h', rank, refs', limit')
    requires SameContents(h', rank, h, rank) && Survivors(h', h) && Private(h, p) && p in refs && refs'[p] == refs[p]
    ensures Private(h', p) && Live(h', rank, p) == Live(h, rank, p)
  {
    PrivateHasNoLinks(h, rank, refs, limit, p);
    assert p in refs' && p in h'.nodes;
    assert CountOf(h', refs', p);
    assert Origs(h', p) == {} by {
      forall x | x in h'.nodes ensures h'.nodes[x].orig != Some(p) { assert x !in Origs(h, p); }
    }
    assert Nexts(h', p) == {} by {
      forall x | x in h'.nodes ensures h'.nodes[x].next != Some(p) { assert x !in Nexts(h, p); }
    }
  }

  lemma FreeHeads(h: Heap, rank: Rank, h': Heap, refs': multiset<Ptr>, limit': Ptr, others: multiset<Ptr>)
    requires HeapOk(h', rank, refs', limit') && SameContents(h', rank, h, rank) && Survivors(h', h)
    requires Heads(h, others) && others <= refs'
    ensures Heads(h', others) && SeesSame(others, h, rank, h', rank)
  {
    forall x | x in others ensures IsHead(h', x) && Live(h', rank, x) == Live(h, rank, x) {
      assert refs'[x] >= others[x] > 0;
      assert x in h'.nodes && IsHead(h, x);
    }
  }

  /** Appending a head to the private buffer `p`, as far as `others` can see. */
  lemma AppendHeads(h: Heap, rank: Rank, refs: multiset<Ptr>, limit: Ptr, p: Ptr, last: Ptr, b2: Ptr, h': Heap,
                    rank': Rank, others: multiset<Ptr>)
    requires HeapOk(h, rank, refs, limit) && Private(h, p) && others + multiset{p} <= refs && Heads(h, others)
    requires last in h.nodes && b2 in h.nodes && h' == Appended(h, last, b2, limit)
    requires forall x :: IsHead(h, x) && !Leads(h, rank, x, p) ==> Live(h', rank', x) == Live(h, rank, x)
    ensures Heads(h', others) && SeesSame(others, h, rank, h', rank')
  {
    hide Live, Leads, HeapOk, Appended;
    LimitIsFree(h, rank, refs, limit);
    PrivateHasNoLinks(h, rank, refs, limit, p);
    PrivateUnreached(h, rank, refs, limit, p);
    forall x | x in others ensures IsHead(h', x) && Live(h', rank', x) == Live(h, rank, x) {
      assert refs[x] >= others[x] + multiset{p}[x];
      assert IsHead(h, x) && x != p;
      AppendedNode(h, last, b2, limit, x);
    }
  }

  lemma AppendedNode(h: Heap, last: Ptr, b2: Ptr, limit: Ptr, x: Ptr)
    requires last in h.nodes && b2 in h.nodes && limit !in h.nodes && IsHead(h, x)
    ensures var h' := Appended(h, last, b2, limit);
            IsHead(h', x) && (x != b2 ==> h'.nodes[x].refcnt == h.nodes[x].refcnt)
  {
  }

  lemma LimitIsFree(h: Heap, rank: Rank, refs: multiset<Ptr>, limit: Ptr)
    requires HeapOk(h, rank, refs, limit)
    ensures limit !in h.nodes
  {
  }

  /** The same for the buffers of other transactions. */
  lemma AppendFrames(h: Heap, rank: Rank, refs: multiset<Ptr>, limit: Ptr, p: Ptr, last: Ptr, b2: Ptr, h': Heap,
                     rank': Rank, frames: seq<Option<Ptr>>)
    requires HeapOk(h, rank, refs, limit) && Private(h, p) && Refs(frames) + multiset{p} + multiset{b2} <= refs
    requires FramesOk(h, rank, frames)
    requires last in h.nodes && b2 in h.nodes && h' == Appended(h, last, b2, limit)
    requires forall x :: IsHead(h, x) && !Leads(h, rank, x, p) ==> Live(h', rank', x) == Live(h, rank, x)
    ensures FramesOk(h', rank', frames) && FrameBytes(h', rank', frames) == FrameBytes(h, rank, frames)
  {
    hide Live, Leads, HeapOk, Appended;
    LimitIsFree(h, rank, refs, limit);
    PrivateHasNoLinks(h, rank, refs, limit, p);
    PrivateUnreached(h, rank, refs, limit, p);
    forall i | 0 <= i < |frames| && frames[i].Some?
      ensures FrameOk(h', rank', frames[i].value) && LiveRest(h', rank', frames[i]) == LiveRest(h, rank, frames[i])
    {
      var q := frames[i].value;
      RefsHold(frames, i);
      assert FrameOk(h, rank, q);
      PrivateHasNoLinks(h, rank, refs, limit, q);
      assert refs[q] >= Refs(frames)[q] + multiset{p}[q] + multiset{b2}[q];
      assert q != p && q != b2;
      AppendedNode(h, last, b2, limit, q);
    }
    forall i | 0 <= i < |frames| ensures LiveRest(h', rank', frames[i]) == LiveRest(h, rank, frames[i]) {
      if frames[i].None? { assert LiveRest(h', rank', frames[i]) == []; }
    }
  }

  lemma FramesPush(h: Heap, rank: Rank, frames: seq<Option<Ptr>>, frame: Option<Ptr>)
    ensures Refs(frames + [frame]) == Refs(frames) + RefOf(frame)
    ensures FrameBytes(h, rank, frames + [frame]) == FrameBytes(h, rank, frames) + [LiveRest(h, rank, frame)]
    ensures FramesOk(h, rank, frames + [frame])
            <==> FramesOk(h, rank, frames) && (frame.Some? ==> FrameOk(h, rank, frame.value))
  {
    hide FrameOk, Live;
    RefsPush(frames, frame);
    var longer := frames + [frame];
    forall i | 0 <= i < |frames| ensures longer[i] == frames[i] {}
    if FramesOk(h, rank, longer) {
      assert longer[|frames|] == frame;
      forall i | 0 <= i < |frames| && frames[i].Some? ensures FrameOk(h, rank, frames[i].value) {
        assert longer[i].Some?;
      }
    }
  }

  /** The innermost transaction's buffer is no one else's. */
  lemma TopIsAlone(h: Heap, rank: Rank, refs: multiset<Ptr>, limit: Ptr, held: multiset<Ptr>, top: Ptr)
    requires HeapOk(h, rank, refs, limit) && Private(h, top) && held + multiset{top} <= refs
    ensures top !in held
  {
    PrivateHasNoLinks(h, rank, refs, limit, top);
    assert refs[top] >= held[top] + 1;
  }

  /** Appending the head `inner` to the private buffer `outer`. */
  lemma MergeFrames(h: Heap, rank: Rank, refs: multiset<Ptr>, limit: Ptr, outer: Ptr, inner: Ptr, last: Ptr, h': Heap,
                    rank': Rank, below: seq<Option<Ptr>>, others: multiset<Ptr>)
    requires HeapOk(h, rank, refs, limit) && others + multiset{outer} <= refs
    requires Refs(below) + multiset{outer} + multiset{inner} <= refs && inner != outer
    requires FramesOk(h, rank, below) && FrameOk(h, rank, outer) && IsHead(h, inner) && Heads(h, others)
    requires last in h.nodes && h' == Appended(h, last, inner, limit)
    requires forall x :: IsHead(h, x) && !Leads(h, rank, x, outer) ==> Live(h', rank', x) == Live(h, rank, x)
    requires |Live(h', rank', outer)| < U32_LIMIT
    ensures FramesOk(h', rank', below + [Some(outer)])
    ensures FrameBytes(h', rank', below) == FrameBytes(h, rank, below)
    ensures Heads(h', others) && SeesSame(others, h, rank, h', rank')
  {
    hide HeapOk, Live, Leads, Refs, FramesOk, Heads, SeesSame, Appended;
    AppendFrames(h, rank, refs, limit, outer, last, inner, h', rank', below);
    AppendHeads(h, rank, refs, limit, outer, last, inner, h', rank', others);
    LimitIsFree(h, rank, refs, limit);
    AppendedNode(h, last, inner, limit, outer);
    FramesPush(h', rank', below, Some(outer));
  }

  /** Allocating a buffer disturbs no one. */
  lemma NewFrames(h: Heap, rank: Rank, h': Heap, rank': Rank, frames: seq<Option<Ptr>>, others: multiset<Ptr>)
    requires SameContents(h, rank, h', rank') && FramesOk(h, rank, frames) && Heads(h, others)
    requires forall x :: x in h.nodes ==> x in h'.nodes && h'.nodes[x] == h.nodes[x]
    ensures FramesOk(h', rank', frames) && FrameBytes(h', rank', frames) == FrameBytes(h, rank, frames)
    ensures Heads(h', others) && SeesSame(others, h, rank, h', rank')
  {
    forall i | 0 <= i < |frames| && frames[i].Some? ensures FrameOk(h', rank', frames[i].value) {
      assert FrameOk(h, rank, frames[i].value);
    }
    forall i | 0 <= i < |frames| ensures LiveRest(h', rank', frames[i]) == LiveRest(h, rank, frames[i]) {
      if frames[i].Some? { assert FrameOk(h, rank, frames[i].value); }
    }
    forall x | x in others ensures IsHead(h', x) && Live(h', rank', x) == Live(h, rank, x) { assert IsHead(h, x); }
  }
}
