// The lock list as a map from index to lock count: which insertions keep it one,
// and so keep exclusion, and which do not.
module LockMap {
  import opened Bytes
  import opened LockList

  /** The block a fresh walk of the list resolves `j` to. */
  function Covering(s: State, chain: seq<Id>, j: nat): Option<Id> {
    if chain == [] then None
    else if StartOf(s, chain[0]) + BLOCK <= j then Covering(s, chain[1..], j)
    else if StartOf(s, chain[0]) <= j then Some(chain[0])
    else None
  }

  /** The lock count of `j`, as a fresh walk sees it. */
  function Value(s: State, j: nat): int {
    var c := Covering(s, s.chain, j);
    if c.Some? then SlotAt(s, c.value, j) else 0
  }

  lemma {:induction false} CoverSame(s: State, s': State, chain: seq<Id>, j: nat)
    requires forall id :: id in chain ==> StartOf(s', id) == StartOf(s, id)
    ensures Covering(s', chain, j) == Covering(s, chain, j)
    decreases |chain|
  {
    if chain != [] {
      assert chain[0] in chain;
      CoverSame(s, s', chain[1..], j);
    }
  }

  lemma {:induction false} CoverPrefix(s: State, a: seq<Id>, b: seq<Id>, c: seq<Id>, j: nat)
    requires Covering(s, b, j) == Covering(s, c, j)
    ensures Covering(s, a + b, j) == Covering(s, a + c, j)
    decreases |a|
  {
    if a == [] {
      assert a + b == b && a + c == c;
    } else {
      CoverPrefix(s, a[1..], b, c, j);
      assert (a + b)[1..] == a[1..] + b && (a + c)[1..] == a[1..] + c;
    }
  }

  lemma {:induction false} CoverSkip(s: State, a: seq<Id>, b: seq<Id>, j: nat)
    requires forall i :: 0 <= i < |a| ==> StartOf(s, a[i]) + BLOCK <= j
    ensures Covering(s, a + b, j) == Covering(s, b, j)
    decreases |a|
  {
    if a == [] {
      assert a + b == b;
    } else {
      CoverSkip(s, a[1..], b, j);
      assert (a + b)[1..] == a[1..] + b;
    }
  }

  /** The covering block is the first that does not end below `j`. */
  lemma {:induction false} CoverIs(s: State, chain: seq<Id>, j: nat) returns (m: nat)
    requires Covering(s, chain, j).Some?
    ensures m < |chain| && Covering(s, chain, j) == Some(chain[m]) && Covers(s, chain[m], j)
    ensures forall i :: 0 <= i < m ==> StartOf(s, chain[i]) + BLOCK <= j
    decreases |chain|
  {
    m := 0;
    if StartOf(s, chain[0]) + BLOCK <= j {
      m := CoverIs(s, chain[1..], j);
      m := m + 1;
    }
  }

  predicate Covers(s: State, id: Id, j: nat) {
    StartOf(s, id) <= j < StartOf(s, id) + BLOCK
  }

  /** The list before and after an insertion, cut where the block goes in. */
  lemma InsertCut(s: State, index: nat, dest: Dest) returns (a: seq<Id>, b: seq<Id>)
    requires Links(s) && Ascending(s) && Fits(s, index, dest)
    ensures s.chain == a + b && Inserted(s, index, dest).chain == a + ([FreshId(s)] + b)
    ensures forall i :: 0 <= i < |a| ==> StartOf(s, a[i]) + BLOCK <= index
    ensures b != [] ==> StartOf(s, b[0]) > index
  {
    hide Links, Ascending, Fits, StartOf;
    var k := Position(s.chain, dest);
    CutBelow(s, index, dest, k);
    a, b := s.chain[..k], s.chain[k..];
  }

  lemma CutBelow(s: State, index: nat, dest: Dest, k: nat)
    requires Links(s) && Ascending(s) && Fits(s, index, dest) && k == Position(s.chain, dest)
    ensures k <= |s.chain|
    ensures forall i :: 0 <= i < k ==> StartOf(s, s.chain[i]) + BLOCK <= index
    ensures k < |s.chain| ==> StartOf(s, s.chain[k]) > index
  {
    StoredAtPosition(s, dest);
    hide Inserted;
    forall i | 0 <= i < k ensures StartOf(s, s.chain[i]) + BLOCK <= index {
      if i < k - 1 { assert Before(s, i, k - 1); }
    }
  }

  lemma CoverAround(s: State, a: seq<Id>, b: seq<Id>, id: Id, j: nat)
    requires forall i :: 0 <= i < |a| ==> StartOf(s, a[i]) + BLOCK <= StartOf(s, id)
    requires b != [] ==> StartOf(s, b[0]) > StartOf(s, id)
    ensures Covering(s, a + ([id] + b), j)
            == if StartOf(s, id) <= j < StartOf(s, id) + BLOCK then Some(id) else Covering(s, a + b, j)
  {
    assert ([id] + b)[0] == id && ([id] + b)[1..] == b;
    if j < StartOf(s, id) {
      CoverPrefix(s, a, [id] + b, b, j);
    } else {
      CoverSkip(s, a, [id] + b, j);
      CoverSkip(s, a, b, j);
    }
  }

  /** Insertion puts the new, empty block in charge of its 128 indices,
      whoever was in charge of them before. */
  lemma InsertTakesOver(s: State, index: nat, dest: Dest, j: nat)
    requires Links(s) && Ascending(s) && Fits(s, index, dest)
    ensures Value(Inserted(s, index, dest), j) == if index <= j < index + BLOCK then 0 else Value(s, j)
    ensures Covering(Inserted(s, index, dest), Inserted(s, index, dest).chain, j)
            == if index <= j < index + BLOCK then Some(FreshId(s)) else Covering(s, s.chain, j)
  {
    hide Ascending, Covering;
    var a, b := InsertCut(s, index, dest);
    InsertKeeps(s, index, dest);
    InsertedBlocks(s, index, dest);
    assert forall x :: x in s.chain ==> x in s.blocks;
    NewBlockCovers(s, Inserted(s, index, dest), a, b, index, j);
  }

  lemma NewBlockCovers(s: State, s': State, a: seq<Id>, b: seq<Id>, index: nat, j: nat)
    requires s.chain == a + b && s'.chain == a + ([FreshId(s)] + b)
    requires forall i :: 0 <= i < |a| ==> StartOf(s, a[i]) + BLOCK <= index
    requires b != [] ==> StartOf(s, b[0]) > index
    requires StartOf(s', FreshId(s)) == index && FreshId(s) in s'.blocks && s'.blocks[FreshId(s)].locks == Zero()
    requires forall id :: id in s.chain ==>
               && id in s.blocks && id in s'.blocks
               && s'.blocks[id].start == s.blocks[id].start && s'.blocks[id].locks == s.blocks[id].locks
    ensures Value(s', j) == if index <= j < index + BLOCK then 0 else Value(s, j)
    ensures Covering(s', s'.chain, j)
            == if index <= j < index + BLOCK then Some(FreshId(s)) else Covering(s, s.chain, j)
  {
    hide Covering;
    forall i | 0 <= i < |a| ensures StartOf(s', a[i]) + BLOCK <= index { assert a[i] in s.chain; }
    if b != [] { assert b[0] in s.chain; }
    CoverAround(s', a, b, FreshId(s), j);
    CoverSame(s, s', s.chain, j);
    if !(index <= j < index + BLOCK) && Covering(s, s.chain, j).Some? { var m := CoverIs(s, s.chain, j); }
  }

  lemma InsertedBlocks(s: State, index: nat, dest: Dest)
    requires Links(s)
    ensures var s' := Inserted(s, index, dest);
            && FreshId(s) in s'.blocks && s'.blocks[FreshId(s)].start == index && s'.blocks[FreshId(s)].locks == Zero()
            && forall id :: id in s.blocks ==>
                 && id in s'.blocks
                 && s'.blocks[id].start == s.blocks[id].start && s'.blocks[id].locks == s.blocks[id].locks
  {
  }

  // ------------------------------------------------------------ invariant

  predicate Holds(th: Thread, j: nat) {
    (th.Held? || th.Find?) && th.index == j
  }

  /** The thread holds entry `j`, or will use a slot of it that it has found already. */
  predicate CommittedTo(s: State, th: Thread, j: nat) {
    match th
    case Idle => false
    case Load(_, _) => false
    case Scan(index, _, seen) => index == j && seen.Some? && Covers(s, seen.value, j)
    case Take(index, _) => index == j
    case Held(index) => index == j
    case Find(index, _) => index == j
  }

  /** What a thread has found is what any other walk finds. */
  predicate ThreadOk(s: State, th: Thread) {
    match th
    case Idle => true
    case Load(_, _) => true
    case Scan(index, _, seen) =>
      seen.Some? && Covers(s, seen.value, index) ==> Covering(s, s.chain, index) == seen
    case Take(index, id) => Covering(s, s.chain, index) == Some(id)
    case Held(index) => Value(s, index) == -1
    case Find(index, id) =>
      && Value(s, index) == -1
      && Covering(s, s.chain, index).Some? && StartOf(s, id) <= StartOf(s, Covering(s, s.chain, index).value)
  }

  predicate BothHold(a: Thread, b: Thread) {
    Holds(a, a.Index()) && Holds(b, a.Index())
  }

  /** No two threads hold the same entry. */
  predicate Exclusive(s: State) {
    forall t, u :: t in s.threads && u in s.threads && t != u ==> !BothHold(s.threads[t], s.threads[u])
  }

  ghost predicate Accounted(s: State, j: nat) {
    Value(s, j) == 0 || (Value(s, j) == -1 && exists t :: t in s.threads && Holds(s.threads[t], j))
  }

  ghost predicate Consistent(s: State) {
    && Inv(s) && Exclusive(s)
    && (forall t :: t in s.threads ==> ThreadOk(s, s.threads[t]))
    && (forall j: nat :: Accounted(s, j))
  }

  /** No thread is committed to an index that a new block takes over. */
  predicate Guarded(s: State, a: Action)
    requires Enabled(s, a)
  {
    a.Scans? && Inserts(s, s.threads[a.t]) ==>
      forall u :: u in s.threads ==> !CommittedWithin(s, s.threads[u], s.threads[a.t].index)
  }

  predicate CommittedWithin(s: State, th: Thread, index: nat) {
    CommittedTo(s, th, th.Index()) && index <= th.Index() < index + BLOCK
  }

  /** The same step on a plain map from index to lock count. */
  predicate MapStep(s: State, a: Action, before: int, after: int, j: nat)
    requires Enabled(s, a)
  {
    match a
    case Takes(t) => after == if j == s.threads[t].index && before == 0 then -1 else before
    case Finds(t) =>
      var th := s.threads[t];
      after == if j == th.index && StartOf(s, th.id) + BLOCK > th.index then before + 1 else before
    case _ => after == before
  }

  // ---------------------------------------------------------- preservation

  lemma SameCover(s: State, s': State)
    requires s'.chain == s.chain && forall id :: id in s.chain ==> StartOf(s', id) == StartOf(s, id)
    ensures forall j: nat :: Covering(s', s'.chain, j) == Covering(s, s.chain, j)
  {
    forall j: nat ensures Covering(s', s'.chain, j) == Covering(s, s.chain, j) { CoverSame(s, s', s.chain, j); }
  }

  lemma SameMap(s: State, s': State)
    requires s'.blocks == s.blocks && s'.chain == s.chain
    ensures forall j: nat :: Covering(s', s'.chain, j) == Covering(s, s.chain, j) && Value(s', j) == Value(s, j)
  {
    SameCover(s, s');
  }

  /** Writing the covering slot of `i` changes the count of `i` alone. */
  lemma SetCovered(s: State, id: Id, i: nat, value: int)
    requires Links(s) && Covering(s, s.chain, i) == Some(id)
    ensures forall j: nat :: Value(SetSlot(s, id, i, value), j) == if j == i then value else Value(s, j)
    ensures forall j: nat :: Covering(SetSlot(s, id, i, value), s.chain, j) == Covering(s, s.chain, j)
  {
    hide Covering;
    var s' := SetSlot(s, id, i, value);
    SameCover(s, s');
    var m := CoverIs(s, s.chain, i);
    assert id in s.blocks && |s.blocks[id].locks| == BLOCK;
    hide Links;
    forall j: nat ensures Value(s', j) == if j == i then value else Value(s, j) {
      var c := Covering(s, s.chain, j);
      if c.Some? { SlotsAfter(s, id, i, value, c.value, j); }
    }
  }

  lemma SlotsAfter(s: State, id: Id, i: nat, value: int, id': Id, j: nat)
    requires id in s.blocks && |s.blocks[id].locks| == BLOCK && Covers(s, id, i)
    ensures SlotAt(SetSlot(s, id, i, value), id', j) == if id' == id && j == i then value else SlotAt(s, id', j)
  {
  }

  /** Thread `t` moves on; everyone else finds what they found before. */
  lemma OthersOk(s: State, s': State, t: nat)
    requires Consistent(s) && Inv(s') && Keeps(s, s') && t in s'.threads && s'.threads == s.threads[t := s'.threads[t]]
    requires ThreadOk(s', s'.threads[t])
    requires forall u :: u in s.threads && u != t && CommittedTo(s, s.threads[u], s.threads[u].Index()) ==>
               && Covering(s', s'.chain, s.threads[u].Index()) == Covering(s, s.chain, s.threads[u].Index())
               && Value(s', s.threads[u].Index()) == Value(s, s.threads[u].Index())
    ensures forall u :: u in s'.threads ==> ThreadOk(s', s'.threads[u])
  {
    forall u | u in s'.threads ensures ThreadOk(s', s'.threads[u]) {
      if u != t {
        assert ThreadOk(s, s.threads[u]) && Placed(s, s.threads[u]);
        OtherOk(s, s', s.threads[u]);
      }
    }
  }

  lemma OtherOk(s: State, s': State, th: Thread)
    requires ThreadOk(s, th) && Placed(s, th) && Keeps(s, s')
    requires CommittedTo(s, th, th.Index()) ==>
               && Covering(s', s'.chain, th.Index()) == Covering(s, s.chain, th.Index())
               && Value(s', th.Index()) == Value(s, th.Index())
    ensures ThreadOk(s', th)
  {
    if th.Find? {
      var m := CoverIs(s, s.chain, th.index);
      assert s.chain[m] in s.chain;
    }
  }

  /** Thread `t` moves on without taking or giving back anything. */
  lemma QuietOk(s: State, s': State, t: nat)
    requires Consistent(s) && Inv(s') && Keeps(s, s') && t in s'.threads && s'.threads == s.threads[t := s'.threads[t]]
    requires ThreadOk(s', s'.threads[t])
    requires forall u :: u in s.threads && u != t && CommittedTo(s, s.threads[u], s.threads[u].Index()) ==>
               Covering(s', s'.chain, s.threads[u].Index()) == Covering(s, s.chain, s.threads[u].Index())
    requires forall j: nat :: Value(s', j) == Value(s, j)
    requires forall j: nat :: Holds(s'.threads[t], j) <==> t in s.threads && Holds(s.threads[t], j)
    ensures Consistent(s')
  {
    OthersOk(s, s', t);
    forall j: nat ensures Accounted(s', j) {
      assert Accounted(s, j);
      if Value(s, j) != 0 {
        var u :| u in s.threads && Holds(s.threads[u], j);
        assert u in s'.threads && Holds(s'.threads[u], j);
      }
    }
    forall u, v | u in s'.threads && v in s'.threads && u != v ensures !BothHold(s'.threads[u], s'.threads[v]) {
      if u != t && v != t { assert !BothHold(s.threads[u], s.threads[v]); }
      if u == t && t in s.threads { assert !BothHold(s.threads[t], s.threads[v]); }
      if v == t && t in s.threads { assert !BothHold(s.threads[u], s.threads[t]); }
    }
  }

  /** A block that is loaded and covers the index is the one every walk finds. */
  lemma LoadedCovers(s: State, index: nat, dest: Dest)
    requires Links(s) && Ascending(s) && Passed(s, index, dest)
    ensures var x := Stored(s, dest);
            x.Some? && Covers(s, x.value, index) ==> Covering(s, s.chain, index) == x
  {
    var x := Stored(s, dest);
    if x.Some? && Covers(s, x.value, index) {
      StoredAtPosition(s, dest);
      var k := Position(s.chain, dest);
      var a, b := s.chain[..k], s.chain[k..];
      assert s.chain == a + b && b[0] == x.value;
      forall i | 0 <= i < |a| ensures StartOf(s, a[i]) + BLOCK <= index {
        if i < k - 1 { assert Before(s, i, k - 1); }
      }
      CoverSkip(s, a, b, index);
    }
  }

  lemma LocalMap(s: State, a: Action)
    requires Consistent(s) && Enabled(s, a) && (a.Lock? || a.Loads? || a.Unlock?)
    ensures Consistent(Next(s, a)) && forall j: nat :: Value(Next(s, a), j) == Value(s, j)
  {
    hide Covering;
    var s' := Next(s, a);
    ListStep(s, a);
    SameMap(s, s');
    if a.t in s.threads { assert Placed(s, s.threads[a.t]) && ThreadOk(s, s.threads[a.t]); }
    if a.Loads? { LoadedCovers(s, s.threads[a.t].index, s.threads[a.t].dest); }
    if a.Unlock? { HeadIsFirst(s, s.threads[a.t].index); }
    QuietOk(s, s', a.t);
  }

  lemma HeadIsFirst(s: State, j: nat)
    requires Links(s) && Ascending(s) && Value(s, j) != 0
    ensures Covering(s, s.chain, j).Some? && s.head.Some?
    ensures StartOf(s, s.head.value) <= StartOf(s, Covering(s, s.chain, j).value)
  {
    var m := CoverIs(s, s.chain, j);
    if m > 0 { assert Before(s, 0, m); }
  }

  /** Everyone else's index is out of the new block's range. */
  lemma InsertMap(s: State, t: nat, th: Thread)
    requires Consistent(s) && Enabled(s, Scans(t)) && th == s.threads[t] && Inserts(s, th) && Guarded(s, Scans(t))
    ensures Consistent(Next(s, Scans(t)))
    ensures forall j: nat :: Value(Next(s, Scans(t)), j) == Value(s, j)
  {
    hide Covering;
    var s1, s' := Inserted(s, th.index, th.dest), Next(s, Scans(t));
    ListStep(s, Scans(t));
    assert Placed(s, th);
    SameMap(s1, s');
    forall j: nat
      ensures Value(s', j) == Value(s, j)
      ensures Covering(s', s'.chain, j)
              == if th.index <= j < th.index + BLOCK then Some(FreshId(s)) else Covering(s, s.chain, j)
    {
      InsertTakesOver(s, th.index, th.dest, j);
      assert Accounted(s, j);
      forall u | u in s.threads && th.index <= j < th.index + BLOCK ensures !Holds(s.threads[u], j) {
        assert !CommittedWithin(s, s.threads[u], th.index);
      }
    }
    forall u | u in s.threads && u != t && CommittedTo(s, s.threads[u], s.threads[u].Index())
      ensures Covering(s', s'.chain, s.threads[u].Index()) == Covering(s, s.chain, s.threads[u].Index())
    {
      assert !CommittedWithin(s, s.threads[u], th.index);
    }
    QuietOk(s, s', t);
  }

  lemma ScanMap(s: State, t: nat, th: Thread)
    requires Consistent(s) && Enabled(s, Scans(t)) && th == s.threads[t] && !Inserts(s, th)
    ensures Consistent(Next(s, Scans(t)))
    ensures forall j: nat :: Value(Next(s, Scans(t)), j) == Value(s, j)
  {
    hide Covering;
    var s' := Next(s, Scans(t));
    ListStep(s, Scans(t));
    assert Placed(s, th) && ThreadOk(s, th);
    SameMap(s, s');
    LoadedCovers(s, th.index, th.dest);
    QuietOk(s, s', t);
  }

  lemma TakeMap(s: State, t: nat, th: Thread)
    requires Consistent(s) && Enabled(s, Takes(t)) && th == s.threads[t]
    ensures var s' := Next(s, Takes(t)); var i := th.index;
            && Consistent(s') && s'.threads[t] == (if Value(s, i) == 0 then Held(i) else Idle)
            && forall j: nat :: Value(s', j) == if j == i && Value(s, i) == 0 then -1 else Value(s, j)
  {
    hide Covering;
    var s' := Next(s, Takes(t));
    ListStep(s, Takes(t));
    assert ThreadOk(s, th);
    if Value(s, th.index) == 0 {
      SetCovered(s, th.id, th.index, -1);
      SameMap(SetSlot(s, th.id, th.index, -1), s');
      NowHeld(s, s', t, th.index);
    } else {
      SameMap(s, s');
      QuietOk(s, s', t);
    }
  }

  lemma NowHeld(s: State, s': State, t: nat, i: nat)
    requires Consistent(s) && Inv(s') && Keeps(s, s') && t in s.threads && !Holds(s.threads[t], s.threads[t].Index())
    requires s'.threads == s.threads[t := Held(i)] && Value(s, i) == 0
    requires forall j: nat :: Covering(s', s'.chain, j) == Covering(s, s.chain, j)
    requires forall j: nat :: Value(s', j) == if j == i then -1 else Value(s, j)
    ensures Consistent(s')
  {
    hide Covering, Value;
    forall u | u in s.threads && u != t ensures ThreadOk(s', s.threads[u]) && !Holds(s.threads[u], i) {
      assert ThreadOk(s, s.threads[u]) && Placed(s, s.threads[u]);
      if s.threads[u].Find? { FindKept(s, s', s.threads[u]); }
    }
    forall j: nat ensures Accounted(s', j) {
      assert Accounted(s, j);
      if j == i {
        assert Holds(s'.threads[t], i);
      } else if Value(s, j) != 0 {
        var u :| u in s.threads && Holds(s.threads[u], j);
        assert Holds(s'.threads[u], j);
      }
    }
    forall u, v | u in s'.threads && v in s'.threads && u != v ensures !BothHold(s'.threads[u], s'.threads[v]) {
      if u != t && v != t { assert !BothHold(s.threads[u], s.threads[v]); }
    }
  }

  lemma FindKept(s: State, s': State, th: Thread)
    requires ThreadOk(s, th) && Placed(s, th) && Keeps(s, s') && th.Find?
    requires Covering(s', s'.chain, th.index) == Covering(s, s.chain, th.index)
    ensures StartOf(s', th.id) <= StartOf(s', Covering(s', s'.chain, th.index).value)
  {
    var m := CoverIs(s, s.chain, th.index);
    assert s.chain[m] in s.chain;
  }

  /** From a block that does not start above the covering one, the walk of
      `logdb_log_inproc_unlock` comes to that one. */
  lemma WalkFinds(s: State, id: Id, j: nat)
    requires Links(s) && Ascending(s) && id in s.chain && Covering(s, s.chain, j).Some?
    requires StartOf(s, id) <= StartOf(s, Covering(s, s.chain, j).value)
    ensures StartOf(s, id) + BLOCK <= j ==>
              && Stored(s, After(id)).Some?
              && StartOf(s, Stored(s, After(id)).value) <= StartOf(s, Covering(s, s.chain, j).value)
    ensures StartOf(s, id) + BLOCK > j ==> Covering(s, s.chain, j) == Some(id)
  {
    var m := CoverIs(s, s.chain, j);
    var k :| 0 <= k < |s.chain| && s.chain[k] == id;
    assert LinkAt(s, k);
    assert m < k ==> Before(s, m, k);
    if k + 1 < m { assert Before(s, k + 1, m); }
  }

  lemma FindMap(s: State, t: nat, th: Thread)
    requires Consistent(s) && Enabled(s, Finds(t)) && th == s.threads[t]
    ensures var s' := Next(s, Finds(t));
            && Consistent(s') && Value(s, th.index) == -1
            && forall j: nat :: MapStep(s, Finds(t), Value(s, j), Value(s', j), j)
  {
    hide Covering;
    var s' := Next(s, Finds(t));
    ListStep(s, Finds(t));
    assert Placed(s, th) && ThreadOk(s, th);
    WalkFinds(s, th.id, th.index);
    if StartOf(s, th.id) + BLOCK <= th.index {
      SameMap(s, s');
      QuietOk(s, s', t);
    } else {
      SetCovered(s, th.id, th.index, 0);
      SameMap(SetSlot(s, th.id, th.index, 0), s');
      NowFree(s, s', t, th.index);
    }
  }

  lemma NowFree(s: State, s': State, t: nat, i: nat)
    requires Consistent(s) && Inv(s') && Keeps(s, s') && t in s.threads && Holds(s.threads[t], i)
    requires s'.threads == s.threads[t := Idle]
    requires forall j: nat :: Covering(s', s'.chain, j) == Covering(s, s.chain, j)
    requires forall j: nat :: Value(s', j) == if j == i then 0 else Value(s, j)
    ensures Consistent(s')
  {
    hide Covering, Value;
    forall u | u in s.threads && u != t ensures ThreadOk(s', s.threads[u]) {
      assert ThreadOk(s, s.threads[u]) && Placed(s, s.threads[u]);
      assert !BothHold(s.threads[t], s.threads[u]);
      if s.threads[u].Find? { FindKept(s, s', s.threads[u]); }
    }
    forall j: nat ensures Accounted(s', j) {
      assert Accounted(s, j);
      if j != i && Value(s, j) != 0 {
        var u :| u in s.threads && Holds(s.threads[u], j);
        assert Holds(s'.threads[u], j);
      }
    }
    forall u, v | u in s'.threads && v in s'.threads && u != v ensures !BothHold(s'.threads[u], s'.threads[v]) {
      if u != t && v != t { assert !BothHold(s.threads[u], s.threads[v]); }
    }
  }

  /** As long as no insertion takes over an index that a thread is committed to,
      each step is a step of a plain map from index to count: lock and unlock
      always find the same slot for an index, overlapping blocks or not. */
  lemma MapRefinement(s: State, a: Action)
    requires Consistent(s) && Enabled(s, a) && Guarded(s, a)
    ensures Consistent(Next(s, a)) && forall j: nat :: MapStep(s, a, Value(s, j), Value(Next(s, a), j), j)
    ensures a.Takes? ==> (Next(s, a).threads[a.t].Held? <==> Value(s, s.threads[a.t].index) == 0)
  {
    hide Consistent, Guarded, Value;
    match a
    case Scans(t) =>
      if Inserts(s, s.threads[t]) { InsertMap(s, t, s.threads[t]); } else { ScanMap(s, t, s.threads[t]); }
    case Takes(t) => TakeMap(s, t, s.threads[t]);
    case Finds(t) => FindMap(s, t, s.threads[t]);
    case _ => LocalMap(s, a);
  }

  predicate GuardedRun(s: State, actions: seq<Action>)
    decreases |actions|
  {
    actions == [] ||
    (Enabled(s, actions[0]) && Guarded(s, actions[0]) && GuardedRun(Next(s, actions[0]), actions[1..]))
  }

  function End(s: State, actions: seq<Action>): State
    requires GuardedRun(s, actions)
    decreases |actions|
  {
    if actions == [] then s else End(Next(s, actions[0]), actions[1..])
  }

  lemma {:induction false} MapRun(s: State, actions: seq<Action>)
    requires Consistent(s) && GuardedRun(s, actions)
    ensures Consistent(End(s, actions))
    decreases |actions|
  {
    if actions != [] {
      MapRefinement(s, actions[0]);
      MapRun(Next(s, actions[0]), actions[1..]);
    }
  }

  lemma InitConsistent()
    ensures Consistent(Init())
  {
    forall j: nat ensures Accounted(Init(), j) { assert Value(Init(), j) == 0; }
  }

  /** Over every guarded run two threads never hold the same entry. */
  lemma InProcessExclusion(actions: seq<Action>, t: nat, u: nat, i: nat)
    requires GuardedRun(Init(), actions)
    requires t in End(Init(), actions).threads && Holds(End(Init(), actions).threads[t], i)
    requires u in End(Init(), actions).threads && Holds(End(Init(), actions).threads[u], i)
    ensures t == u && Value(End(Init(), actions), i) == -1
  {
    InitConsistent();
    MapRun(Init(), actions);
    var s := End(Init(), actions);
    assert ThreadOk(s, s.threads[t]);
    assert BothHold(s.threads[t], s.threads[u]);
  }

  // ------------------------------------------------------- disjoint blocks

  /** The new block ends before the next one begins. */
  predicate Disjoint(s: State, a: Action)
    requires Enabled(s, a)
  {
    a.Scans? && Inserts(s, s.threads[a.t]) && s.threads[a.t].seen.Some? ==>
      s.threads[a.t].index + BLOCK <= StartOf(s, s.threads[a.t].seen.value)
  }

  /** Blocks that do not overlap, as with starts that are multiples of 128, are
      enough: nobody can be committed to an index that no block covers yet. */
  lemma DisjointIsGuarded(s: State, a: Action)
    requires Consistent(s) && Enabled(s, a) && Disjoint(s, a)
    ensures Guarded(s, a)
  {
    if a.Scans? && Inserts(s, s.threads[a.t]) {
      var th := s.threads[a.t];
      assert Placed(s, th);
      forall u | u in s.threads ensures !CommittedWithin(s, s.threads[u], th.index) {
        assert ThreadOk(s, s.threads[u]);
        Uncovered(s, th.index, th.dest, s.threads[u].Index());
      }
    }
  }

  lemma Uncovered(s: State, index: nat, dest: Dest, j: nat)
    requires Links(s) && Ascending(s) && Fits(s, index, dest)
    requires Stored(s, dest).Some? ==> index + BLOCK <= StartOf(s, Stored(s, dest).value)
    ensures index <= j < index + BLOCK ==> Covering(s, s.chain, j).None?
  {
    if index <= j < index + BLOCK {
      StoredAtPosition(s, dest);
      var k := Position(s.chain, dest);
      var a, b := s.chain[..k], s.chain[k..];
      assert s.chain == a + b;
      forall i | 0 <= i < |a| ensures StartOf(s, a[i]) + BLOCK <= j {
        if i < k - 1 { assert Before(s, i, k - 1); }
      }
      CoverSkip(s, a, b, j);
    }
  }

  // -------------------------------------------------------------- exactness

  /** Some run of `s`, in which every insertion is guarded, ends in `s1`. */
  ghost predicate Comes(s: State, s1: State) {
    exists actions :: GuardedRun(s, actions) && End(s, actions) == s1
  }

  lemma {:induction false} RunConcat(s: State, a: seq<Action>, b: seq<Action>)
    requires GuardedRun(s, a) && GuardedRun(End(s, a), b)
    ensures GuardedRun(s, a + b) && End(s, a + b) == End(End(s, a), b)
    decreases |a|
  {
    if a == [] {
      assert a + b == b;
    } else {
      RunConcat(Next(s, a[0]), a[1..], b);
      assert (a + b)[1..] == a[1..] + b;
    }
  }

  lemma ComesOn(s: State, s1: State, s2: State)
    requires Comes(s, s1) && Comes(s1, s2)
    ensures Comes(s, s2)
  {
    var a :| GuardedRun(s, a) && End(s, a) == s1;
    var b :| GuardedRun(s1, b) && End(s1, b) == s2;
    RunConcat(s, a, b);
  }

  lemma ComesByStep(s: State, a: Action)
    requires Enabled(s, a) && Guarded(s, a)
    ensures Comes(s, Next(s, a))
  {
    assert [a][1..] == [];
    assert GuardedRun(Next(s, a), []);
    assert GuardedRun(s, [a]) && End(s, [a]) == Next(s, a);
  }

  /** The list as a walk sees it, and all threads but `t`. */
  ghost predicate OnlyMoves(s: State, s': State, t: nat) {
    && s'.blocks == s.blocks && s'.chain == s.chain && s'.head == s.head
    && t in s'.threads && s'.threads == s.threads[t := s'.threads[t]]
  }

  /** It looks at one block and takes it or goes on behind it. */
  lemma LooksAt(s: State, t: nat, j: nat, dest: Dest, id: Id) returns (s': State)
    requires Inv(s) && t in s.threads && s.threads[t] == Load(j, dest)
    requires Stored(s, dest) == Some(id) && StartOf(s, id) <= j
    ensures Comes(s, s') && OnlyMoves(s, s', t) && Inv(s')
    ensures s'.threads[t] == if Covers(s, id, j) then Take(j, id) else Load(j, After(id))
  {
    hide Inv, Comes;
    var s1 := Next(s, Loads(t));
    ComesByStep(s, Loads(t));
    ListStep(s, Loads(t));
    s' := Next(s1, Scans(t));
    ComesByStep(s1, Scans(t));
    ListStep(s1, Scans(t));
    ComesOn(s, s1, s');
    assert s'.threads == s.threads[t := s'.threads[t]];
  }

  /** A thread that begins now walks to the covering block of `j`. */
  lemma {:induction false} WalksTo(s: State, t: nat, j: nat, dest: Dest, k: nat, m: nat) returns (s': State)
    requires Inv(s) && t in s.threads && s.threads[t] == Load(j, dest)
    requires k == Position(s.chain, dest) <= m < |s.chain|
    requires Covers(s, s.chain[m], j) && forall i :: 0 <= i < m ==> StartOf(s, s.chain[i]) + BLOCK <= j
    ensures Comes(s, s') && OnlyMoves(s, s', t) && s'.threads[t] == Take(j, s.chain[m])
    decreases m - k
  {
    hide Comes;
    assert Placed(s, s.threads[t]);
    StoredAtPosition(s, dest);
    var id := s.chain[k];
    assert k < m ==> StartOf(s, id) + BLOCK <= j;
    s' := LooksAt(s, t, j, dest, id);
    if k < m {
      PositionAfter(s, k);
      var s2 := s';
      s' := WalksTo(s2, t, j, After(id), k + 1, m);
      ComesOn(s, s2, s');
      assert s'.threads == s.threads[t := s'.threads[t]];
    }
  }

  lemma PositionAfter(s: State, k: nat)
    requires Links(s) && Ascending(s) && k < |s.chain|
    ensures Position(s.chain, After(s.chain[k])) == k + 1
  {
    PositionFound(s.chain, After(s.chain[k]));
    var p := Position(s.chain, After(s.chain[k])) - 1;
    assert p < k ==> Before(s, p, k);
    assert k < p ==> Before(s, k, p);
  }

  /** A thread that begins now takes the free covering slot of `j`. */
  lemma NewcomerHolds(s: State, t: nat, j: nat) returns (s': State)
    requires Inv(s) && t !in s.threads
    requires Covering(s, s.chain, j).Some? && SlotAt(s, Covering(s, s.chain, j).value, j) == 0
    ensures Comes(s, s') && s'.threads == s.threads[t := Held(j)]
    ensures var taken := SetSlot(s, Covering(s, s.chain, j).value, j, -1);
            s'.blocks == taken.blocks && s'.chain == s.chain && s'.head == s.head
  {
    hide Links, Ascending, Consistent, Comes, Next;
    var m := CoverIs(s, s.chain, j);
    var s1 := Begins(s, t, j);
    var s2 := WalksTo(s1, t, j, Head, 0, m);
    ComesOn(s, s1, s2);
    s' := TakesFree(s2, t, j, s.chain[m]);
    ComesOn(s, s2, s');
  }

  lemma Begins(s: State, t: nat, j: nat) returns (s': State)
    requires Inv(s) && t !in s.threads
    ensures Comes(s, s') && Inv(s') && s'.threads == s.threads[t := Load(j, Head)]
    ensures s'.blocks == s.blocks && s'.chain == s.chain && s'.head == s.head
  {
    hide Comes, Links, Ascending;
    s' := Next(s, Lock(t, j));
    ComesByStep(s, Lock(t, j));
    ListStep(s, Lock(t, j));
  }

  lemma TakesFree(s: State, t: nat, j: nat, id: Id) returns (s': State)
    requires t in s.threads && s.threads[t] == Take(j, id) && SlotAt(s, id, j) == 0
    ensures Comes(s, s') && s'.threads == s.threads[t := Held(j)]
    ensures s'.blocks == SetSlot(s, id, j, -1).blocks && s'.chain == s.chain && s'.head == s.head
  {
    hide Comes;
    s' := Next(s, Takes(t));
    ComesByStep(s, Takes(t));
  }

  lemma NewThread(s: State) returns (t: nat)
    ensures t !in s.threads
  {
    t := AboveAll(s.threads.Keys);
  }

  lemma {:induction false} AboveAll(ids: set<nat>) returns (t: nat)
    ensures forall i :: i in ids ==> i < t
    decreases |ids|
  {
    t := 0;
    if ids != {} {
      var i :| i in ids;
      var rest := AboveAll(ids - {i});
      t := if i < rest then rest else i + 1;
      assert ids == ids - {i} + {i};
    }
  }

  /** A thread holds `j`, and a walk finds a free slot for it: exclusion is lost. */
  lemma HolderIsOvertaken(s: State, u: nat, j: nat) returns (s': State)
    requires Inv(s) && u in s.threads && Holds(s.threads[u], j)
    requires Covering(s, s.chain, j).Some? && SlotAt(s, Covering(s, s.chain, j).value, j) == 0
    ensures Comes(s, s') && !Exclusive(s')
  {
    var t := NewThread(s);
    s' := NewcomerHolds(s, t, j);
    assert BothHold(s'.threads[u], s'.threads[t]);
  }

  /** A thread is about to take the free slot `j` of another block than the one a
      walk finds. */
  lemma TakerIsOvertaken(s: State, u: nat, j: nat, id: Id) returns (s': State)
    requires Inv(s) && u in s.threads && s.threads[u] == Take(j, id) && SlotAt(s, id, j) == 0
    requires Covering(s, s.chain, j).Some? && Covering(s, s.chain, j) != Some(id)
    requires SlotAt(s, Covering(s, s.chain, j).value, j) == 0
    ensures Comes(s, s') && !Exclusive(s')
  {
    var s1 := Next(s, Takes(u));
    ComesByStep(s, Takes(u));
    ListStep(s, Takes(u));
    SameCover(s, s1);
    s' := HolderIsOvertaken(s1, u, j);
    ComesOn(s, s1, s');
  }

  lemma ScannerIsOvertaken(s: State, u: nat, j: nat, dest: Dest, id: Id) returns (s': State)
    requires Inv(s) && u in s.threads && s.threads[u] == Scan(j, dest, Some(id))
    requires Covers(s, id, j) && SlotAt(s, id, j) == 0
    requires Covering(s, s.chain, j).Some? && Covering(s, s.chain, j) != Some(id)
    requires SlotAt(s, Covering(s, s.chain, j).value, j) == 0
    ensures Comes(s, s') && !Exclusive(s')
  {
    var s1 := Next(s, Scans(u));
    ComesByStep(s, Scans(u));
    ListStep(s, Scans(u));
    SameCover(s, s1);
    s' := TakerIsOvertaken(s1, u, j, id);
    ComesOn(s, s1, s');
  }

  lemma OldIds(s: State)
    requires Inv(s)
    ensures FreshId(s) !in s.blocks && forall id :: id in s.chain ==> id in s.blocks
    ensures forall u :: u in s.threads && s.threads[u].Take? ==> s.threads[u].id in s.blocks
  {
    forall u | u in s.threads && s.threads[u].Take? ensures s.threads[u].id in s.blocks {
      assert Placed(s, s.threads[u]);
    }
  }

  /** The new block is the one that walks find now, and the old ones are as they were. */
  lemma TakenOver(s: State, t: nat, j: nat)
    requires Inv(s) && Enabled(s, Scans(t)) && Inserts(s, s.threads[t])
    requires s.threads[t].index <= j < s.threads[t].index + BLOCK
    ensures var s1 := Next(s, Scans(t));
            && Inv(s1) && Covering(s1, s1.chain, j) == Some(FreshId(s)) && SlotAt(s1, FreshId(s), j) == 0
            && FreshId(s) !in s.blocks && s1.threads == s.threads[t := s1.threads[t]]
            && (forall id :: id in s.chain ==> id in s.blocks)
            && (forall id :: id in s.blocks ==>
                  id in s1.blocks
                  && s1.blocks[id].start == s.blocks[id].start && s1.blocks[id].locks == s.blocks[id].locks)
  {
    hide Ascending;
    var th := s.threads[t];
    assert Placed(s, th);
    ListStep(s, Scans(t));
    OldIds(s);
    InsertTakesOver(s, th.index, th.dest, j);
    InsertedBlocks(s, th.index, th.dest);
    SameMap(Inserted(s, th.index, th.dest), Next(s, Scans(t)));
  }

  /** A thread is committed to an index that the insertion takes over. */
  lemma CommittedIsOvertaken(s: State, t: nat, u: nat) returns (s': State)
    requires Consistent(s) && Enabled(s, Scans(t)) && Inserts(s, s.threads[t])
    requires u in s.threads && CommittedWithin(s, s.threads[u], s.threads[t].index)
    ensures Comes(Next(s, Scans(t)), s') && !Exclusive(s')
  {
    hide Inv, Comes, Exclusive, Next;
    var other := s.threads[u];
    var j := other.Index();
    var s1 := Next(s, Scans(t));
    assert ThreadOk(s, other) && Accounted(s, j);
    OldIds(s);
    TakenOver(s, t, j);
    if Value(s, j) != 0 {
      var w :| w in s.threads && Holds(s.threads[w], j);
      s' := HolderIsOvertaken(s1, w, j);
    } else if other.Take? {
      s' := TakerIsOvertaken(s1, u, j, other.id);
    } else {
      s' := ScannerIsOvertaken(s1, u, j, other.dest, other.seen.value);
    }
  }

  /** No continuation whose later insertions are guarded lets two threads hold one
      entry. */
  ghost predicate Safe(s: State) {
    forall s' :: Comes(s, s') ==> Exclusive(s')
  }

  /** An insertion keeps exclusion if and only if no thread holds, gives back, or
      has already found a slot of, an index that the new block takes over. */
  lemma InsertionIsSafeExactly(s: State, t: nat)
    requires Consistent(s) && Enabled(s, Scans(t)) && Inserts(s, s.threads[t])
    ensures Safe(Next(s, Scans(t))) <==> Guarded(s, Scans(t))
  {
    var s1 := Next(s, Scans(t));
    if Guarded(s, Scans(t)) {
      MapRefinement(s, Scans(t));
      forall s' | Comes(s1, s') ensures Exclusive(s') {
        var actions :| GuardedRun(s1, actions) && End(s1, actions) == s';
        MapRun(s1, actions);
      }
    } else {
      var u :| u in s.threads && CommittedWithin(s, s.threads[u], s.threads[t].index);
      var s' := CommittedIsOvertaken(s, t, u);
    }
  }
}
