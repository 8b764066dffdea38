// The lock list and the threads that hold an entry: which insertions can let two of
// them have the same one. A thread that is giving its entry back, and has already
// walked past the place where a block goes in, does no harm: it is as if it had
// finished before.
module LockSafety {
  import opened Bytes
  import opened LockList
  import opened LockMap

  /** The walk of a thread that gives back has passed `start`. */
  predicate Past(s: State, th: Thread, start: nat) {
    th.Find? && StartOf(s, th.id) > start
  }

  /** A new block at `index` takes over the entry that the thread is committed to. */
  predicate AtRisk(s: State, th: Thread, index: nat) {
    CommittedWithin(s, th, index) && !Past(s, th, index)
  }

  predicate Harmless(s: State, a: Action)
    requires Enabled(s, a)
  {
    a.Scans? && Inserts(s, s.threads[a.t]) ==>
      forall u :: u in s.threads ==> !AtRisk(s, s.threads[u], s.threads[a.t].index)
  }

  /** No two threads hold one entry. */
  predicate HeldAlone(s: State) {
    forall t, u :: t in s.threads && u in s.threads && t != u && s.threads[t].Held? && s.threads[u].Held?
                   ==> s.threads[t].index != s.threads[u].index
  }

  // ------------------------------------------------------------ simulation

  /** A thread gives back a slot that walks do not find any more, and is past the
      block that they find. */
  predicate Late(s: State, th: Thread) {
    && th.Find? && th.id in s.chain && Covering(s, s.chain, th.index).Some?
    && StartOf(s, th.id) > StartOf(s, Covering(s, s.chain, th.index).value)
  }

  /** The lists are the same, apart from lock counts. */
  predicate SameList(s: State, e: State) {
    && e.chain == s.chain && e.head == s.head && e.blocks.Keys == s.blocks.Keys
    && forall id :: id in s.blocks ==>
         e.blocks[id].start == s.blocks[id].start && e.blocks[id].next == s.blocks[id].next
  }

  /** `e` is `s` with the late threads done. */
  ghost predicate DoneEarly(s: State, e: State) {
    && Inv(s) && Consistent(e) && SameList(s, e) && s.threads.Keys == e.threads.Keys
    && (forall j: nat :: Value(s, j) == Value(e, j))
    && (forall t :: t in s.threads ==> SameOrLate(s, e, t))
  }

  predicate SameOrLate(s: State, e: State, t: nat)
    requires t in s.threads && t in e.threads
  {
    e.threads[t] == s.threads[t] || (e.threads[t].Idle? && Late(s, s.threads[t]))
  }

  lemma ListFacts(s: State, e: State)
    requires SameList(s, e)
    ensures forall id :: StartOf(e, id) == StartOf(s, id) && Stored(e, After(id)) == Stored(s, After(id))
    ensures Stored(e, Head) == Stored(s, Head) && FreshId(e) == FreshId(s)
    ensures forall j: nat :: Covering(e, e.chain, j) == Covering(s, s.chain, j)
  {
    SameCover(s, e);
  }

  /** A slot that walks do not find any more may change. */
  lemma SetShadowed(s: State, id: Id, i: nat, value: int)
    requires Links(s) && Covering(s, s.chain, i) != Some(id)
    ensures forall j: nat :: Value(SetSlot(s, id, i, value), j) == Value(s, j)
    ensures SameList(s, SetSlot(s, id, i, value))
  {
    var s' := SetSlot(s, id, i, value);
    SameCover(s, s');
    forall j: nat ensures Value(s', j) == Value(s, j) {
      var c := Covering(s, s.chain, j);
      if c.Some? {
        var m := CoverIs(s, s.chain, j);
        assert s.chain[m] in s.chain;
      }
    }
  }

  lemma LateKept(s: State, s': State, th: Thread)
    requires Late(s, th) && s'.chain == s.chain && forall id :: id in s.chain ==> StartOf(s', id) == StartOf(s, id)
    ensures Late(s', th)
  {
    SameCover(s, s');
    var m := CoverIs(s, s.chain, th.index);
    assert s.chain[m] in s.chain;
  }

  /** Thread `t` moves, and with it at most slots that walks do not find. */
  lemma LateMoves(s: State, t: nat, th: Thread)
    requires Inv(s) && Enabled(s, Finds(t)) && th == s.threads[t] && Late(s, th)
    ensures var s' := Next(s, Finds(t));
            && Inv(s') && SameList(s, s') && s'.threads == s.threads[t := s'.threads[t]]
            && (forall j: nat :: Value(s', j) == Value(s, j))
            && (s'.threads[t].Idle? || Late(s', s'.threads[t]))
  {
    var s' := Next(s, Finds(t));
    ListStep(s, Finds(t));
    hide Covering, Value;
    if StartOf(s, th.id) + BLOCK - 1 < th.index {
      SameMap(s, s');
      var k :| 0 <= k < |s.chain| && s.chain[k] == th.id;
      assert LinkAt(s, k);
      if k + 1 < |s.chain| { assert Before(s, k, k + 1); }
    } else {
      SetShadowed(s, th.id, th.index, SlotAt(s, th.id, th.index) + 1);
      SameMap(SetSlot(s, th.id, th.index, SlotAt(s, th.id, th.index) + 1), s');
    }
  }

  /** The threads that did not move, on lists with the same blocks. */
  lemma OthersAgree(s: State, e: State, t: nat, s': State, e': State)
    requires DoneEarly(s, e) && SameList(s, s') && t in s'.threads && s'.threads == s.threads[t := s'.threads[t]]
    requires e'.threads.Keys == s'.threads.Keys
    requires forall u :: u in s.threads && u != t ==> e'.threads[u] == e.threads[u]
    requires SameOrLate(s', e', t)
    ensures forall u :: u in s'.threads ==> SameOrLate(s', e', u)
  {
    forall u | u in s'.threads ensures SameOrLate(s', e', u) {
      if u != t {
        assert SameOrLate(s, e, u);
        if e.threads[u] != s.threads[u] {
          ChainIsThere(s);
          LateKept(s, s', s.threads[u]);
        }
      }
    }
  }

  lemma ChainIsThere(s: State)
    requires Inv(s)
    ensures forall id :: id in s.chain ==> id in s.blocks
  {
  }

  lemma SameListBoth(s: State, e: State, s': State, e': State)
    requires SameList(s, e) && SameList(s, s') && SameList(e, e')
    ensures SameList(s', e')
  {
  }

  lemma SameListItself(s: State)
    ensures SameList(s, s)
  {
  }

  /** A late thread goes on: nobody sees it. */
  lemma LateStep(s: State, e: State, t: nat)
    requires DoneEarly(s, e) && Enabled(s, Finds(t)) && e.threads[t] != s.threads[t]
    ensures DoneEarly(Next(s, Finds(t)), e)
  {
    hide Inv, Consistent, SameList, Late, Value, Next;
    assert SameOrLate(s, e, t);
    LateMoves(s, t, s.threads[t]);
    OthersAgree(s, e, t, Next(s, Finds(t)), e);
    SameListItself(e);
    SameListBoth(s, e, Next(s, Finds(t)), e);
  }

  /** A thread that is in no hurry does the same on both. */
  predicate Together(s: State, e: State, a: Action)
    requires Enabled(s, a)
  {
    && (a.t in s.threads ==> a.t in e.threads && e.threads[a.t] == s.threads[a.t])
    && !(a.Scans? && Inserts(s, s.threads[a.t]))
  }

  /** It moves alike. */
  ghost predicate MovesAlike(s: State, e: State, t: nat, s': State, e': State) {
    && SameList(s, s') && SameList(e, e') && t in s'.threads && t in e'.threads && s'.threads[t] == e'.threads[t]
    && s'.threads == s.threads[t := s'.threads[t]] && e'.threads == e.threads[t := e'.threads[t]]
    && forall j: nat :: Value(s', j) == Value(e', j)
  }

  lemma QuietAlike(s: State, e: State, a: Action)
    requires DoneEarly(s, e) && Enabled(s, a) && Together(s, e, a) && (a.Lock? || a.Loads? || a.Scans? || a.Unlock?)
    ensures Enabled(e, a) && Guarded(e, a) && MovesAlike(s, e, a.t, Next(s, a), Next(e, a))
  {
    hide Inv, Consistent, Covering, Value;
    ListFacts(s, e);
    SameMap(s, Next(s, a));
    SameMap(e, Next(e, a));
  }

  /** A found slot is the one that walks find. */
  lemma FoundAlike(s: State, e: State, t: nat, th: Thread)
    requires DoneEarly(s, e) && t in s.threads && th == s.threads[t] == e.threads[t] && th.Take?
    ensures Links(s) && Links(e) && Covering(s, s.chain, th.index) == Some(th.id)
    ensures SlotAt(s, th.id, th.index) == Value(s, th.index) == Value(e, th.index) == SlotAt(e, th.id, th.index)
  {
    hide Covering;
    ListFacts(s, e);
    assert ThreadOk(e, th);
  }

  lemma TakesAlike(s: State, e: State, t: nat, th: Thread)
    requires DoneEarly(s, e) && Enabled(s, Takes(t)) && th == s.threads[t] && e.threads[t] == th
    ensures MovesAlike(s, e, t, Next(s, Takes(t)), Next(e, Takes(t)))
  {
    hide Inv, Consistent, Covering, Value, Links, SetSlot, SlotAt;
    FoundAlike(s, e, t, th);
    if SlotAt(s, th.id, th.index) == 0 {
      SetBoth(s, e, th.id, th.index, -1);
      PutAlike(SetSlot(s, th.id, th.index, -1), SetSlot(e, th.id, th.index, -1), t, Held(th.index));
    } else {
      SameListItself(s);
      SameListItself(e);
      PutAlike(s, e, t, Idle);
    }
  }

  lemma PutAlike(s: State, e: State, t: nat, th: Thread)
    requires forall j: nat :: Value(s, j) == Value(e, j)
    ensures forall j: nat :: Value(Put(s, t, th), j) == Value(Put(e, t, th), j)
    ensures SameList(s, Put(s, t, th)) && SameList(e, Put(e, t, th))
  {
    hide Value, Covering;
    SameMap(s, Put(s, t, th));
    SameMap(e, Put(e, t, th));
  }

  lemma SetKeepsList(s: State, id: Id, i: nat, value: int)
    ensures var s' := SetSlot(s, id, i, value); SameList(s, s') && s'.threads == s.threads
  {
  }

  lemma SetBoth(s: State, e: State, id: Id, i: nat, value: int)
    requires Links(s) && Links(e) && SameList(s, e) && Covering(s, s.chain, i) == Some(id)
    requires forall j: nat :: Value(s, j) == Value(e, j)
    ensures var (s', e') := (SetSlot(s, id, i, value), SetSlot(e, id, i, value));
            && SameList(s, s') && SameList(e, e') && s'.threads == s.threads && e'.threads == e.threads
            && forall j: nat :: Value(s', j) == Value(e', j)
  {
    hide Value, Links, Covering, SetSlot;
    ListFacts(s, e);
    SetCovered(s, id, i, value);
    SetCovered(e, id, i, value);
    SetKeepsList(s, id, i, value);
    SetKeepsList(e, id, i, value);
  }

  /** The walk of a thread that is not late has not passed the slot. */
  lemma WalksAlike(s: State, e: State, t: nat, th: Thread)
    requires DoneEarly(s, e) && t in s.threads && th == s.threads[t] == e.threads[t] && th.Find?
    ensures Links(s) && Links(e)
    ensures StartOf(s, th.id) + BLOCK - 1 < th.index <==> StartOf(e, th.id) + BLOCK - 1 < th.index
    ensures StartOf(s, th.id) + BLOCK - 1 < th.index ==> Stored(s, After(th.id)).Some?
    ensures Stored(s, After(th.id)) == Stored(e, After(th.id))
    ensures StartOf(s, th.id) + BLOCK > th.index ==>
              && Covering(s, s.chain, th.index) == Some(th.id)
              && SlotAt(s, th.id, th.index) == Value(s, th.index) == Value(e, th.index) == SlotAt(e, th.id, th.index)
  {
    hide Covering;
    ListFacts(s, e);
    assert ThreadOk(e, th) && Placed(e, th);
    WalkFinds(e, th.id, th.index);
  }

  lemma FindsAlike(s: State, e: State, t: nat, th: Thread)
    requires DoneEarly(s, e) && Enabled(s, Finds(t)) && th == s.threads[t] && e.threads[t] == th
    ensures MovesAlike(s, e, t, Next(s, Finds(t)), Next(e, Finds(t)))
  {
    hide Inv, Consistent, Covering, Value, Links, SetSlot, SlotAt, Stored;
    WalksAlike(s, e, t, th);
    if StartOf(s, th.id) + BLOCK - 1 < th.index {
      SameListItself(s);
      SameListItself(e);
      PutAlike(s, e, t, Find(th.index, Stored(s, After(th.id)).value));
    } else {
      var value := SlotAt(s, th.id, th.index) + 1;
      SetBoth(s, e, th.id, th.index, value);
      PutAlike(SetSlot(s, th.id, th.index, value), SetSlot(e, th.id, th.index, value), t, Idle);
    }
  }

  /** A step that inserts no block, of a thread that is not late. */
  lemma StepAlike(s: State, e: State, a: Action)
    requires DoneEarly(s, e) && Enabled(s, a) && Together(s, e, a)
    ensures Enabled(e, a) && DoneEarly(Next(s, a), Next(e, a))
  {
    hide Inv, Consistent, Value, Next, SameList, Late, Covering;
    match a {
      case Takes(t) => TakesAlike(s, e, t, s.threads[t]);
      case Finds(t) => FindsAlike(s, e, t, s.threads[t]);
      case _ => QuietAlike(s, e, a);
    }
    ListStep(s, a);
    MapRefinement(e, a);
    OthersAgree(s, e, a.t, Next(s, a), Next(e, a));
    SameListBoth(s, e, Next(s, a), Next(e, a));
  }

  // -------------------------------------------------------------- insertion

  /** How far the walk of a thread that gives back has to go. */
  function Ahead(s: State, th: Thread): nat {
    var c := Covering(s, s.chain, th.Index());
    if th.Find? && c.Some? && StartOf(s, c.value) > StartOf(s, th.id)
    then StartOf(s, c.value) - StartOf(s, th.id) else 0
  }

  lemma FindOnList(e: State, u: nat, th: Thread)
    requires Consistent(e) && Enabled(e, Finds(u)) && th == e.threads[u]
    ensures var e' := Next(e, Finds(u));
            && SameList(e, e') && e'.threads == e.threads[u := e'.threads[u]]
            && if StartOf(e, th.id) + BLOCK <= th.index
               then e'.threads[u].Find? && e'.threads[u].index == th.index && Ahead(e', e'.threads[u]) < Ahead(e, th)
               else e'.threads[u].Idle?
  {
    hide Covering;
    var e' := Next(e, Finds(u));
    assert ThreadOk(e, th) && Placed(e, th);
    WalkFinds(e, th.id, th.index);
    if StartOf(e, th.id) + BLOCK <= th.index {
      SameMap(e, e');
      var k :| 0 <= k < |e.chain| && e.chain[k] == th.id;
      assert LinkAt(e, k);
      assert Before(e, k, k + 1);
    } else {
      SetKeepsList(e, th.id, th.index, SlotAt(e, th.id, th.index) + 1);
    }
  }

  lemma SameThrough(a: State, b: State, c: State)
    requires SameList(a, b) && SameList(b, c)
    ensures SameList(a, c)
  {
  }

  /** A thread that gives back can be done at once. */
  lemma FinishFind(e: State, u: nat, th: Thread) returns (e': State)
    requires Consistent(e) && u in e.threads && th == e.threads[u] && th.Find?
    ensures Consistent(e') && SameList(e, e') && e'.threads == e.threads[u := Idle]
    ensures forall j: nat :: Value(e', j) == if j == th.index then 0 else Value(e, j)
    decreases Ahead(e, th)
  {
    hide Consistent, Value, Covering, SetSlot, SameList, Next, Ahead;
    FindMap(e, u, th);
    FindOnList(e, u, th);
    e' := Next(e, Finds(u));
    ListFacts(e, e');
    if StartOf(e, th.id) + BLOCK <= th.index {
      var e1 := e';
      e' := FinishFind(e1, u, e1.threads[u]);
      SameThrough(e, e1, e');
    }
  }

  /** All of these threads are done, and nothing else has changed. */
  ghost predicate Finished(e: State, done: set<nat>, e': State) {
    && Consistent(e') && SameList(e, e') && e'.threads.Keys == e.threads.Keys
    && (forall u :: u in e.threads ==> e'.threads[u] == if u in done then Idle else e.threads[u])
    && (forall j: nat ::
          (forall u :: u in done && u in e.threads ==> e.threads[u].Index() != j) ==> Value(e', j) == Value(e, j))
  }

  lemma {:induction false} FinishAll(e: State, done: set<nat>) returns (e': State)
    requires Consistent(e) && forall u :: u in done ==> u in e.threads && e.threads[u].Find?
    ensures Finished(e, done, e')
    decreases |done|
  {
    hide Consistent, Value, SameList;
    e' := e;
    if done == {} {
      SameListItself(e);
    } else {
      var u :| u in done;
      var rest := done - {u};
      assert done == rest + {u};
      var e1 := FinishAll(e, rest);
      e' := FinishFind(e1, u, e1.threads[u]);
      SameThrough(e, e1, e');
      forall j: nat | forall v :: v in done && v in e.threads ==> e.threads[v].Index() != j
        ensures Value(e', j) == Value(e, j)
      {
        assert e.threads[u].Index() != j;
        assert forall v :: v in rest && v in e.threads ==> e.threads[v].Index() != j;
      }
    }
  }

  /** The threads that give back what block `index` takes over, and are past it. */
  function PastIt(s: State, e: State, index: nat): set<nat> {
    set u | u in e.threads && PastBlock(s, e.threads[u], index)
  }

  predicate PastBlock(s: State, th: Thread, index: nat) {
    Past(s, th, index) && index <= th.Index() < index + BLOCK
  }

  /** With those threads done, nobody is committed to what the block takes over. */
  lemma GuardedThen(s: State, e: State, t: nat, th: Thread, e1: State)
    requires DoneEarly(s, e) && Enabled(s, Scans(t)) && th == s.threads[t] == e.threads[t]
    requires Inserts(s, th) && Harmless(s, Scans(t)) && Finished(e, PastIt(s, e, th.index), e1)
    ensures Enabled(e1, Scans(t)) && e1.threads[t] == th && Inserts(e1, th) && Guarded(e1, Scans(t))
  {
    hide Inv, Consistent, Value, Covering;
    ListFacts(s, e);
    ListFacts(e, e1);
    forall u | u in e1.threads ensures !CommittedWithin(e1, e1.threads[u], th.index) {
      assert !AtRisk(s, s.threads[u], th.index);
      assert SameOrLate(s, e, u);
    }
  }

  /** A covering block that a new one takes over from starts behind it. */
  lemma TakenFromBehind(s: State, index: nat, dest: Dest, j: nat)
    requires Links(s) && Ascending(s) && LockList.Fits(s, index, dest) && index <= j < index + BLOCK
    requires Covering(s, s.chain, j).Some?
    ensures StartOf(s, Covering(s, s.chain, j).value) > index
  {
    var a, b := InsertCut(s, index, dest);
    CoverSkip(s, a, b, j);
    var m := CoverIs(s, b, j);
  }

  /** What the insertion makes of the threads that are past it, or late already. */
  lemma InsertLate(s: State, t: nat, th: Thread, u: nat)
    requires Inv(s) && Enabled(s, Scans(t)) && th == s.threads[t] && Inserts(s, th)
    requires u in s.threads && u != t && (Late(s, s.threads[u]) || (PastBlock(s, s.threads[u], th.index)))
    ensures Late(Next(s, Scans(t)), s.threads[u])
  {
    hide Covering, Ascending, Links;
    var late, s' := s.threads[u], Next(s, Scans(t));
    assert Placed(s, th) && Placed(s, late);
    InsertTakesOver(s, th.index, th.dest, late.index);
    InsertKeeps(s, th.index, th.dest);
    SameMap(Inserted(s, th.index, th.dest), s');
    var c := Covering(s, s.chain, late.index);
    if th.index <= late.index < th.index + BLOCK {
      if Late(s, late) { TakenFromBehind(s, th.index, th.dest, late.index); }
    } else {
      var m := CoverIs(s, s.chain, late.index);
      assert s.chain[m] in s.chain;
    }
  }

  /** An insertion that puts nobody at risk, on both lists. */
  lemma InsertAlike(s: State, e: State, t: nat, th: Thread) returns (e': State)
    requires DoneEarly(s, e) && Enabled(s, Scans(t)) && th == s.threads[t] == e.threads[t]
    requires Inserts(s, th) && Harmless(s, Scans(t))
    ensures DoneEarly(Next(s, Scans(t)), e')
  {
    hide Inv, Consistent, Value, Covering, SameList, Late, Inserted, Harmless, CommittedWithin, Next, Inserts;
    var done := PastIt(s, e, th.index);
    var e1 := FinishAll(e, done);
    GuardedThen(s, e, t, th, e1);
    var s' := Next(s, Scans(t));
    e' := Next(e1, Scans(t));
    ListStep(s, Scans(t));
    MapRefinement(e1, Scans(t));
    InsertSame(s, e, e1, t, th);
    forall u | u in s'.threads ensures SameOrLate(s', e', u) {
      assert SameOrLate(s, e, u);
      if u != t && (u in done || e.threads[u] != s.threads[u]) { InsertLate(s, t, th, u); }
    }
  }

  /** The lists stay alike, and the lock counts: those of the block are all 0. */
  lemma InsertSame(s: State, e: State, e1: State, t: nat, th: Thread)
    requires DoneEarly(s, e) && Enabled(s, Scans(t)) && th == s.threads[t] == e.threads[t]
    requires Inserts(s, th) && Finished(e, PastIt(s, e, th.index), e1) && e1.threads[t] == th && Inserts(e1, th)
    ensures var (s', e') := (Next(s, Scans(t)), Next(e1, Scans(t)));
            && SameList(s', e') && t in s'.threads && t in e'.threads && s'.threads[t] == e'.threads[t]
            && s'.threads == s.threads[t := s'.threads[t]] && e'.threads == e1.threads[t := e'.threads[t]]
            && (forall j: nat :: Value(s', j) == Value(e', j))
  {
    hide Inv, Consistent, Value, Covering, Links, Ascending, SameList, Inserted;
    SameThrough(s, e, e1);
    ListFacts(s, e1);
    ConsistentInv(e1);
    PlacedFacts(s, t, th);
    PlacedFacts(e1, t, th);
    BlockAlike(s, e1, t, th);
    SameMap(Inserted(s, th.index, th.dest), Next(s, Scans(t)));
    SameMap(Inserted(e1, th.index, th.dest), Next(e1, Scans(t)));
    forall j: nat ensures Value(Next(s, Scans(t)), j) == Value(Next(e1, Scans(t)), j) {
      InsertTakesOver(s, th.index, th.dest, j);
      InsertTakesOver(e1, th.index, th.dest, j);
    }
  }

  lemma BlockAlike(s: State, e: State, t: nat, th: Thread)
    requires SameList(s, e) && t in s.threads && t in e.threads && th == s.threads[t] == e.threads[t]
    requires th.Scan? && Inserts(s, th) && Inserts(e, th)
    ensures var (s', e') := (Next(s, Scans(t)), Next(e, Scans(t)));
            && SameList(s', e') && t in s'.threads && t in e'.threads && s'.threads[t] == e'.threads[t]
            && s'.threads == s.threads[t := s'.threads[t]] && e'.threads == e.threads[t := e'.threads[t]]
            && s'.blocks == Inserted(s, th.index, th.dest).blocks && s'.chain == Inserted(s, th.index, th.dest).chain
            && e'.blocks == Inserted(e, th.index, th.dest).blocks && e'.chain == Inserted(e, th.index, th.dest).chain
  {
  }

  lemma ConsistentInv(e: State)
    requires Consistent(e)
    ensures Inv(e)
  {
  }

  lemma PlacedFacts(s: State, t: nat, th: Thread)
    requires Inv(s) && t in s.threads && th == s.threads[t] && th.Scan? && Inserts(s, th)
    ensures Links(s) && Ascending(s) && LockList.Fits(s, th.index, th.dest)
  {
    assert Placed(s, th);
  }

  // --------------------------------------------------------------- all runs

  lemma HarmlessStep(s: State, e: State, a: Action) returns (e': State)
    requires DoneEarly(s, e) && Enabled(s, a) && Harmless(s, a)
    ensures DoneEarly(Next(s, a), e')
  {
    hide Inv, Consistent, Value, SameList, Next, Harmless, Inserts;
    if a.t in s.threads && e.threads[a.t] != s.threads[a.t] {
      assert SameOrLate(s, e, a.t);
      e' := e;
      LateStep(s, e, a.t);
    } else if a.Scans? && Inserts(s, s.threads[a.t]) {
      e' := InsertAlike(s, e, a.t, s.threads[a.t]);
    } else {
      StepAlike(s, e, a);
      e' := Next(e, a);
    }
  }

  predicate HarmlessRun(s: State, actions: seq<Action>)
    decreases |actions|
  {
    actions == [] ||
    (Enabled(s, actions[0]) && Harmless(s, actions[0]) && HarmlessRun(Next(s, actions[0]), actions[1..]))
  }

  function Result(s: State, actions: seq<Action>): State
    requires HarmlessRun(s, actions)
    decreases |actions|
  {
    if actions == [] then s else Result(Next(s, actions[0]), actions[1..])
  }

  lemma {:induction false} HarmlessRunStays(s: State, e: State, actions: seq<Action>) returns (e': State)
    requires DoneEarly(s, e) && HarmlessRun(s, actions)
    ensures DoneEarly(Result(s, actions), e')
    decreases |actions|
  {
    hide DoneEarly, Next, Enabled, Harmless;
    e' := e;
    if actions != [] {
      var e1 := HarmlessStep(s, e, actions[0]);
      e' := HarmlessRunStays(Next(s, actions[0]), e1, actions[1..]);
    }
  }

  lemma DoneEarlyAlone(s: State, e: State)
    requires DoneEarly(s, e)
    ensures HeldAlone(s)
  {
    hide Inv, SameList, Value, Accounted, ThreadOk;
    forall t, u | t in s.threads && u in s.threads && t != u && s.threads[t].Held? && s.threads[u].Held?
      ensures s.threads[t].index != s.threads[u].index
    {
      assert SameOrLate(s, e, t) && SameOrLate(s, e, u);
      assert !BothHold(e.threads[t], e.threads[u]);
    }
  }

  lemma InitDoneEarly()
    ensures DoneEarly(Init(), Init())
  {
    InitConsistent();
  }

  /** Over every run in which no insertion puts a thread at risk, no two threads
      hold one entry. */
  lemma HolderExclusion(actions: seq<Action>)
    requires HarmlessRun(Init(), actions)
    ensures HeldAlone(Result(Init(), actions))
  {
    InitDoneEarly();
    var e := HarmlessRunStays(Init(), Init(), actions);
    DoneEarlyAlone(Result(Init(), actions), e);
  }

  // -------------------------------------------------------------- exactness

  /** Some harmless run of `s` ends in `s1`. */
  ghost predicate Leads(s: State, s1: State) {
    exists actions :: HarmlessRun(s, actions) && Result(s, actions) == s1
  }

  lemma {:induction false} GuardedIsHarmless(s: State, actions: seq<Action>)
    requires GuardedRun(s, actions)
    ensures HarmlessRun(s, actions) && Result(s, actions) == End(s, actions)
    decreases |actions|
  {
    hide Next, Enabled;
    if actions != [] {
      assert Harmless(s, actions[0]);
      GuardedIsHarmless(Next(s, actions[0]), actions[1..]);
    }
  }

  lemma ComesLeads(s: State, s1: State)
    requires Comes(s, s1)
    ensures Leads(s, s1)
  {
    var actions :| GuardedRun(s, actions) && End(s, actions) == s1;
    GuardedIsHarmless(s, actions);
  }

  /** A thread holds `j`, and walks find a free slot for it. */
  lemma HolderLosesIt(s: State, u: nat, j: nat) returns (s': State)
    requires Inv(s) && u in s.threads && s.threads[u] == Held(j)
    requires Covering(s, s.chain, j).Some? && SlotAt(s, Covering(s, s.chain, j).value, j) == 0
    ensures Comes(s, s') && !HeldAlone(s')
  {
    hide Inv, Covering, Comes, SlotAt;
    var t := NewThread(s);
    s' := NewcomerHolds(s, t, j);
    assert s'.threads[u] == Held(j) == s'.threads[t] && u != t;
  }

  /** Its own slot is another one, and free, too. */
  lemma TakerLosesIt(s: State, u: nat, j: nat, id: Id) returns (s': State)
    requires Inv(s) && u in s.threads && s.threads[u] == Take(j, id) && SlotAt(s, id, j) == 0
    requires Covering(s, s.chain, j).Some? && Covering(s, s.chain, j) != Some(id)
    requires SlotAt(s, Covering(s, s.chain, j).value, j) == 0
    ensures Comes(s, s') && !HeldAlone(s')
  {
    hide Comes, HeldAlone;
    var s1 := Next(s, Takes(u));
    ComesByStep(s, Takes(u));
    ListStep(s, Takes(u));
    SameCover(s, s1);
    s' := HolderLosesIt(s1, u, j);
    ComesOn(s, s1, s');
  }

  /** Every block from `id` up to `goal` ends below `j`, and `goal` covers it. */
  predicate WayTo(s: State, id: Id, goal: Id, j: nat) {
    && id in s.chain && goal in s.chain && Covers(s, goal, j) && StartOf(s, id) <= StartOf(s, goal)
    && forall x :: x in s.chain && StartOf(s, id) <= StartOf(s, x) < StartOf(s, goal) ==> StartOf(s, x) + BLOCK <= j
  }

  /** The walk of a thread that gives back arrives. */
  lemma Arrives(s: State, w: nat, j: nat, id: Id, goal: Id) returns (s': State)
    requires Inv(s) && w in s.threads && s.threads[w] == Find(j, id) && WayTo(s, id, goal, j)
    ensures Comes(s, s') && Inv(s') && OnlyMoves(s, s', w) && s'.threads[w] == Find(j, goal)
    decreases StartOf(s, goal) - StartOf(s, id)
  {
    hide Comes;
    s' := s;
    if id == goal {
      ComesAtOnce(s);
    } else {
      var next := OneFurther(s, id, goal, j);
      var s1 := Next(s, Finds(w));
      ComesByStep(s, Finds(w));
      ListStep(s, Finds(w));
      s' := Arrives(s1, w, j, next, goal);
      ComesOn(s, s1, s');
      assert s'.threads == s.threads[w := s'.threads[w]];
    }
  }

  lemma ComesAtOnce(s: State)
    ensures Comes(s, s)
  {
    assert GuardedRun(s, []) && End(s, []) == s;
  }

  lemma OneFurther(s: State, id: Id, goal: Id, j: nat) returns (next: Id)
    requires Inv(s) && WayTo(s, id, goal, j) && id != goal
    ensures Stored(s, After(id)) == Some(next) && StartOf(s, id) < StartOf(s, next) && WayTo(s, next, goal, j)
    ensures StartOf(s, id) + BLOCK <= j
  {
    var k :| 0 <= k < |s.chain| && s.chain[k] == id;
    var g :| 0 <= g < |s.chain| && s.chain[g] == goal;
    assert LinkAt(s, k);
    assert g < k ==> Before(s, g, k);
    assert Before(s, k, g);
    next := s.chain[k + 1];
    assert Before(s, k, k + 1);
    if k + 1 < g { assert Before(s, k + 1, g); }
  }

  lemma {:induction false} RunKeepsInv(s: State, actions: seq<Action>)
    requires Inv(s) && GuardedRun(s, actions)
    ensures Inv(End(s, actions))
    decreases |actions|
  {
    hide Inv, Next, Enabled, Guarded;
    if actions != [] {
      ListStep(s, actions[0]);
      RunKeepsInv(Next(s, actions[0]), actions[1..]);
    }
  }

  lemma ComesInv(s: State, s1: State)
    requires Inv(s) && Comes(s, s1)
    ensures Inv(s1)
  {
    var actions :| GuardedRun(s, actions) && End(s, actions) == s1;
    RunKeepsInv(s, actions);
  }

  lemma SameWay(s: State, s': State, id: Id, goal: Id, j: nat)
    requires s'.chain == s.chain && forall x :: x in s.chain ==> StartOf(s', x) == StartOf(s, x)
    ensures WayTo(s, id, goal, j) ==> WayTo(s', id, goal, j)
  {
  }

  /** A thread that gives back frees the slot that it comes to. */
  lemma GivesBack(s: State, w: nat, j: nat, id: Id) returns (s': State)
    requires Inv(s) && w in s.threads && s.threads[w] == Find(j, id) && Covers(s, id, j) && SlotAt(s, id, j) == -1
    ensures Comes(s, s') && Inv(s') && s'.threads == s.threads[w := Idle]
    ensures s'.chain == s.chain && s'.head == s.head && s'.blocks == SetSlot(s, id, j, 0).blocks
  {
    hide Comes;
    s' := Next(s, Finds(w));
    ComesByStep(s, Finds(w));
    ListStep(s, Finds(w));
  }

  lemma SlotSet(s: State, s': State, id: Id, j: nat, value: int)
    requires Inv(s) && id in s.blocks && Covers(s, id, j)
    requires s'.blocks == SetSlot(s, id, j, value).blocks && s'.chain == s.chain
    ensures SlotAt(s', id, j) == value
    ensures forall x, i :: x != id || i != j ==> SlotAt(s', x, i) == SlotAt(s, x, i)
    ensures forall x :: StartOf(s', x) == StartOf(s, x)
    ensures forall i: nat :: Covering(s', s'.chain, i) == Covering(s, s.chain, i)
  {
    assert |s.blocks[id].locks| == BLOCK;
    SameCover(s, s');
  }

  lemma CoveringIs(s: State, j: nat) returns (id: Id)
    requires Inv(s) && Covering(s, s.chain, j).Some?
    ensures Covering(s, s.chain, j) == Some(id) && id in s.chain && id in s.blocks && Covers(s, id, j)
  {
    var m := CoverIs(s, s.chain, j);
    id := s.chain[m];
  }

  /** A thread that gives back comes to the block that walks find now, after somebody
      has taken its slot. */
  lemma FinderFreesIt(s: State, u: nat, j: nat, id: Id) returns (s': State)
    requires Inv(s) && u in s.threads && s.threads[u] == Find(j, id)
    requires Covering(s, s.chain, j).Some? && SlotAt(s, Covering(s, s.chain, j).value, j) == 0
    requires WayTo(s, id, Covering(s, s.chain, j).value, j)
    ensures Comes(s, s') && !HeldAlone(s')
  {
    hide Inv, Covering, Comes, SlotAt, SetSlot, WayTo, HeldAlone;
    var goal := CoveringIs(s, j);
    var t := NewThread(s);
    var s1 := NewcomerHolds(s, t, j);
    ComesInv(s, s1);
    SlotSet(s, s1, goal, j, -1);
    SameWay(s, s1, id, goal, j);
    var s2 := Arrives(s1, u, j, id, goal);
    ComesOn(s, s1, s2);
    SameSlots(s1, s2, goal, j);
    var s3 := GivesBack(s2, u, j, goal);
    ComesOn(s, s2, s3);
    InChain(s2, goal);
    SlotSet(s2, s3, goal, j, 0);
    s' := HolderLosesIt(s3, t, j);
    ComesOn(s, s3, s');
  }

  lemma SameSlots(s: State, s': State, goal: Id, j: nat)
    requires s'.blocks == s.blocks && s'.chain == s.chain
    ensures SlotAt(s', goal, j) == SlotAt(s, goal, j) && Covers(s', goal, j) == Covers(s, goal, j)
    ensures Covering(s', s'.chain, j) == Covering(s, s.chain, j)
  {
    SameMap(s, s');
  }

  /** A thread that gives back frees the other slot, which somebody else has found. */
  lemma FinderFreesOther(s: State, u: nat, j: nat, id: Id, w: nat, from: Id) returns (s': State)
    requires Inv(s) && u in s.threads && s.threads[u] == Take(j, id) && SlotAt(s, id, j) == -1
    requires w in s.threads && s.threads[w] == Find(j, from) && WayTo(s, from, id, j)
    requires Covering(s, s.chain, j).Some? && Covering(s, s.chain, j) != Some(id)
    requires SlotAt(s, Covering(s, s.chain, j).value, j) == 0
    ensures Comes(s, s') && !HeldAlone(s')
  {
    hide Inv, Covering, Comes, SlotAt, SetSlot, HeldAlone, Covers;
    var s1 := Arrives(s, w, j, from, id);
    SameSlots(s, s1, id, j);
    SameSlots(s, s1, Covering(s, s.chain, j).value, j);
    InChain(s1, id);
    var s2 := GivesBack(s1, w, j, id);
    ComesOn(s, s1, s2);
    SlotSet(s1, s2, id, j, 0);
    s' := TakerLosesIt(s2, u, j, id);
    ComesOn(s, s2, s');
  }

  lemma InChain(s: State, id: Id)
    requires Inv(s) && id in s.chain
    ensures id in s.blocks
  {
  }

  /** Somebody holds `j`, or gives it back on a way to one of its two slots. */
  predicate InTheWay(s: State, w: nat, j: nat, id: Id, goal: Id) {
    w in s.threads
    && (s.threads[w] == Held(j)
        || (s.threads[w].Find? && s.threads[w].index == j
            && (WayTo(s, s.threads[w].id, goal, j) || WayTo(s, s.threads[w].id, id, j))))
  }

  /** A thread has found slot `j` of another block than walks find now. */
  lemma FoundLosesIt(s: State, u: nat, j: nat, id: Id, goal: Id, w: nat) returns (s': State)
    requires Inv(s) && u in s.threads && s.threads[u] == Take(j, id)
    requires Covering(s, s.chain, j) == Some(goal) && goal != id && SlotAt(s, goal, j) == 0
    requires SlotAt(s, id, j) == 0 || (SlotAt(s, id, j) == -1 && InTheWay(s, w, j, id, goal))
    ensures Comes(s, s') && !HeldAlone(s')
  {
    hide Inv, Covering, Comes, SlotAt, WayTo, HeldAlone;
    if SlotAt(s, id, j) == 0 {
      s' := TakerLosesIt(s, u, j, id);
    } else if s.threads[w] == Held(j) {
      s' := HolderLosesIt(s, w, j);
    } else if WayTo(s, s.threads[w].id, goal, j) {
      s' := FinderFreesIt(s, w, j, s.threads[w].id);
    } else {
      s' := FinderFreesOther(s, u, j, id, w, s.threads[w].id);
    }
  }

  /** The same of a thread that is about to. */
  lemma FindsAndLosesIt(s: State, u: nat, j: nat, dest: Dest, id: Id, goal: Id, w: nat) returns (s': State)
    requires Inv(s) && u in s.threads && s.threads[u] == Scan(j, dest, Some(id)) && Covers(s, id, j)
    requires Covering(s, s.chain, j) == Some(goal) && goal != id && SlotAt(s, goal, j) == 0
    requires SlotAt(s, id, j) == 0 || (SlotAt(s, id, j) == -1 && InTheWay(s, w, j, id, goal))
    ensures Comes(s, s') && !HeldAlone(s')
  {
    hide Comes, HeldAlone;
    var s1 := Next(s, Scans(u));
    ComesByStep(s, Scans(u));
    ListStep(s, Scans(u));
    SameMap(s, s1);
    s' := FoundLosesIt(s1, u, j, id, goal, w);
    ComesOn(s, s1, s');
  }

  lemma StartsLater(s: State, k: nat, l: nat)
    requires Ascending(s) && k < l < |s.chain|
    ensures StartOf(s, s.chain[k]) < StartOf(s, s.chain[l])
  {
    assert Before(s, k, l);
  }

  /** Blocks in front of the one that walks find end below `j`. */
  lemma WayToCovering(s: State, id: Id, goal: Id, j: nat)
    requires Inv(s) && Covering(s, s.chain, j) == Some(goal) && id in s.chain && StartOf(s, id) <= StartOf(s, goal)
    ensures WayTo(s, id, goal, j)
  {
    var m := CoverIs(s, s.chain, j);
    forall x | x in s.chain && StartOf(s, id) <= StartOf(s, x) < StartOf(s, goal) ensures StartOf(s, x) + BLOCK <= j {
      var k :| 0 <= k < |s.chain| && s.chain[k] == x;
      if m < k { StartsLater(s, m, k); }
    }
  }

  /** The way to the block that walks found before the insertion. */
  lemma WayToOld(s: State, s1: State, from: Id, id: Id, j: nat, added: Id)
    requires WayTo(s, from, id, j) && Keeps(s, s1) && forall x :: x in s1.chain ==> x in s.chain || x == added
    requires StartOf(s1, added) < StartOf(s1, from)
    ensures WayTo(s1, from, id, j)
  {
  }

  /** A slot that a thread has found is free, or somebody holds the entry or is on the
      way to that slot. */
  lemma SlotOfFound(s: State, e: State, u: nat, j: nat, id: Id) returns (w: nat)
    requires DoneEarly(s, e) && u in s.threads && s.threads[u] == e.threads[u]
    requires s.threads[u] == Take(j, id)
             || (s.threads[u].Scan? && s.threads[u].index == j && s.threads[u].seen == Some(id) && Covers(s, id, j))
    ensures Covering(s, s.chain, j) == Some(id) && id in s.chain
    ensures SlotAt(s, id, j) == 0
            || (SlotAt(s, id, j) == -1 && w in s.threads
                && (s.threads[w] == Held(j)
                    || (s.threads[w].Find? && s.threads[w].index == j && WayTo(s, s.threads[w].id, id, j))))
  {
    hide Covering, WayTo;
    ListFacts(s, e);
    assert ThreadOk(e, e.threads[u]) && Accounted(e, j);
    var _ := CoveringIs(s, j);
    w := u;
    if Value(e, j) != 0 {
      w :| w in e.threads && Holds(e.threads[w], j);
      assert SameOrLate(s, e, w) && ThreadOk(e, e.threads[w]) && Placed(s, s.threads[w]);
      if s.threads[w].Find? { WayToCovering(s, s.threads[w].id, id, j); }
    }
  }

  /** What an insertion leaves and what it adds. */
  lemma Insertion(s: State, t: nat, th: Thread, j: nat)
    requires Inv(s) && Enabled(s, Scans(t)) && th == s.threads[t] && Inserts(s, th) && th.index <= j < th.index + BLOCK
    ensures var (s', added) := (Next(s, Scans(t)), FreshId(s));
            && Inv(s') && Keeps(s, s') && Covering(s', s'.chain, j) == Some(added) && SlotAt(s', added, j) == 0
            && added !in s.chain && StartOf(s', added) == th.index && s'.threads == s.threads[t := s'.threads[t]]
            && (forall x :: x in s'.chain ==> x in s.chain || x == added)
            && (forall x :: x in s.chain ==> SlotAt(s', x, j) == SlotAt(s, x, j) && Covers(s', x, j) == Covers(s, x, j))
  {
    hide Covering;
    TakenOver(s, t, j);
    ListStep(s, Scans(t));
    PlacedFacts(s, t, th);
    var a, b := InsertCut(s, th.index, th.dest);
    InsertKeeps(s, th.index, th.dest);
  }

  /** From a block that was there, and does not start above the new one, the way leads
      to the new one. */
  lemma FromBehind(s: State, s1: State, id: Id, added: Id, j: nat)
    requires Inv(s) && Inv(s1) && Keeps(s, s1) && Covering(s1, s1.chain, j) == Some(added)
    requires id in s.chain ==> StartOf(s, id) <= StartOf(s1, added)
    ensures id in s.chain ==> WayTo(s1, id, added, j)
  {
    hide Covering, WayTo;
    if id in s.chain { WayToCovering(s1, id, added, j); }
  }

  /** Whoever was on the way to the old slot still is, or is led to the new one. */
  lemma StillInTheWay(s: State, s1: State, t: nat, w: nat, j: nat, id: Id, added: Id)
    requires Inv(s) && Inv(s1) && Keeps(s, s1) && Covering(s1, s1.chain, j) == Some(added)
    requires t in s.threads && s.threads[t].Scan? && t in s1.threads && s1.threads == s.threads[t := s1.threads[t]]
    requires forall x :: x in s1.chain ==> x in s.chain || x == added
    requires w in s.threads
    requires s.threads[w] == Held(j)
             || (s.threads[w].Find? && s.threads[w].index == j && WayTo(s, s.threads[w].id, id, j))
    ensures InTheWay(s1, w, j, id, added)
  {
    if s.threads[w].Find? {
      var from := s.threads[w].id;
      if StartOf(s, from) <= StartOf(s1, added) {
        FromBehind(s, s1, from, added, j);
      } else {
        WayToOld(s, s1, from, id, j, added);
      }
    }
  }

  /** Every risk is real. */
  lemma RiskIsReal(s: State, e: State, t: nat, th: Thread, u: nat) returns (s': State)
    requires DoneEarly(s, e) && Enabled(s, Scans(t)) && th == s.threads[t] && Inserts(s, th)
    requires u in s.threads && AtRisk(s, s.threads[u], th.index)
    ensures Comes(Next(s, Scans(t)), s') && !HeldAlone(s')
  {
    hide Consistent, Covering, Comes, HeldAlone, Next, WayTo, SlotAt, Keeps, Links, Ascending;
    var other, s1, added := s.threads[u], Next(s, Scans(t)), FreshId(s);
    var j := other.Index();
    Insertion(s, t, th, j);
    assert u != t;
    match other {
      case Held(_) => s' := HolderLosesIt(s1, u, j);
      case Find(_, id) =>
        FromBehind(s, s1, id, added, j);
        s' := FinderFreesIt(s1, u, j, id);
      case Take(_, id) =>
        var w := SlotOfFound(s, e, u, j, id);
        if SlotAt(s, id, j) != 0 { StillInTheWay(s, s1, t, w, j, id, added); }
        s' := FoundLosesIt(s1, u, j, id, added, w);
      case Scan(_, dest, seen) =>
        var w := SlotOfFound(s, e, u, j, seen.value);
        if SlotAt(s, seen.value, j) != 0 { StillInTheWay(s, s1, t, w, j, seen.value, added); }
        s' := FindsAndLosesIt(s1, u, j, dest, seen.value, added, w);
    }
  }

  /** No continuation of harmless steps lets two threads hold one entry. */
  ghost predicate SafeForHolders(s: State) {
    forall s' :: Leads(s, s') ==> HeldAlone(s')
  }

  /** An insertion keeps two threads from holding one entry, in every continuation of
      harmless steps, if and only if it puts no thread at risk: none that holds an
      entry of the new block, that has found a slot of one, or that gives one back and
      has not walked past the block yet. */
  lemma InsertionIsHarmlessExactly(actions: seq<Action>, t: nat)
    requires HarmlessRun(Init(), actions)
    requires Enabled(Result(Init(), actions), Scans(t))
    requires Inserts(Result(Init(), actions), Result(Init(), actions).threads[t])
    ensures var s := Result(Init(), actions);
            SafeForHolders(Next(s, Scans(t))) <==> Harmless(s, Scans(t))
  {
    hide Next, DoneEarly, HeldAlone, Inserts, AtRisk;
    InitDoneEarly();
    var s := Result(Init(), actions);
    var e := HarmlessRunStays(Init(), Init(), actions);
    if Harmless(s, Scans(t)) {
      var e1 := HarmlessStep(s, e, Scans(t));
      forall s' | Leads(Next(s, Scans(t)), s') ensures HeldAlone(s') {
        var rest :| HarmlessRun(Next(s, Scans(t)), rest) && Result(Next(s, Scans(t)), rest) == s';
        var e' := HarmlessRunStays(Next(s, Scans(t)), e1, rest);
        DoneEarlyAlone(s', e');
      }
    } else {
      var u :| u in s.threads && AtRisk(s, s.threads[u], s.threads[t].index);
      var s' := RiskIsReal(s, e, t, s.threads[t], u);
      ComesLeads(Next(s, Scans(t)), s');
    }
  }
}
