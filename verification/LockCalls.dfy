// The calls on the lock list, from beginning to end: left alone, a thread that
// locks or unlocks gets to the end of its call, whatever others have done to the
// list meanwhile, and what the end is.
module LockCalls {
  import opened Bytes
  import opened LockList
  import opened LockMap

  predicate Locking(th: Thread) {
    th.Load? || th.Scan? || th.Take?
  }

  predicate Walking(th: Thread) {
    Locking(th) || th.Find?
  }

  function OwnStep(th: Thread, t: nat): Action
    requires Walking(th)
  {
    match th
    case Load(_, _) => Loads(t)
    case Scan(_, _, _) => Scans(t)
    case Take(_, _) => Takes(t)
    case Find(_, _) => Finds(t)
  }

  /** Thread `t` after `steps` steps of its own, or fewer if its call has ended. */
  function Alone(s: State, t: nat, steps: nat): State
    decreases steps
  {
    if steps == 0 || t !in s.threads || !Walking(s.threads[t]) then s
    else Alone(Next(s, OwnStep(s.threads[t], t)), t, steps - 1)
  }

  lemma OneStep(s: State, t: nat, steps: nat)
    requires t in s.threads && Walking(s.threads[t]) && steps > 0
    ensures Alone(s, t, steps) == Alone(Next(s, OwnStep(s.threads[t], t)), t, steps - 1)
  {
  }

  lemma Ended(s: State, t: nat, steps: nat)
    requires t in s.threads && !Walking(s.threads[t])
    ensures Alone(s, t, steps) == s
  {
  }

  // ------------------------------------------------------------- locking

  /** Where in the list the walk goes on. A block that was loaded and does not start
      above the index is looked at even if others have put blocks in front of it. */
  function From(s: State, th: Thread): nat
    requires Locking(th)
  {
    match th
    case Load(_, dest) => Position(s.chain, dest)
    case Scan(index, dest, seen) => if UsesSeen(s, th) then Place(s, seen.value) else Position(s.chain, dest)
    case Take(_, id) => Place(s, id)
  }

  predicate UsesSeen(s: State, th: Thread) {
    th.Scan? && th.seen.Some? && StartOf(s, th.seen.value) <= th.index
  }

  function Place(s: State, id: Id): nat {
    var k := Position(s.chain, After(id));
    if k > 0 then k - 1 else 0
  }

  lemma FromWithin(s: State, th: Thread)
    requires Locking(th)
    ensures From(s, th) <= |s.chain|
  {
  }

  /** The block that the walk comes to; none if it puts in a new one. */
  function Target(s: State, th: Thread): Option<Id>
    requires Locking(th)
  {
    FromWithin(s, th);
    Covering(s, s.chain[From(s, th)..], th.index)
  }

  /** How a lock call ends: with the slot of the block that the walk comes to if it
      was free, with the slot of a new block if there is none. */
  ghost predicate LockEnd(s: State, s': State, t: nat, th: Thread)
    requires Locking(th)
  {
    var c := Target(s, th);
    if c.None? then
      exists dest :: Fits(s, th.index, dest)
                     && s' == Put(SetSlot(Inserted(s, th.index, dest), FreshId(s), th.index, -1), t, Held(th.index))
    else if SlotAt(s, c.value, th.index) == 0 then
      s' == Put(SetSlot(s, c.value, th.index, -1), t, Held(th.index))
    else s' == Put(s, t, Idle)
  }

  /** Steps that are certainly enough. */
  function Enough(s: State, th: Thread): nat
    requires Locking(th)
  {
    FromWithin(s, th);
    match th
    case Load(_, _) => 2 * (|s.chain| - From(s, th)) + 3
    case Scan(_, dest, seen) =>
      2 * (|s.chain| - From(s, th)) + if UsesSeen(s, th) || seen == Stored(s, dest) then 2 else 3
    case Take(_, _) => 1
  }

  lemma PutInserted(s: State, t: nat, th: Thread, index: nat, dest: Dest)
    ensures Inserted(Put(s, t, th), index, dest) == Put(Inserted(s, index, dest), t, th)
    ensures Fits(Put(s, t, th), index, dest) <==> Fits(s, index, dest)
  {
  }

  lemma PutSlot(s: State, t: nat, th: Thread, th': Thread, id: Id, index: nat, value: int)
    ensures SlotAt(Put(s, t, th), id, index) == SlotAt(s, id, index)
    ensures Put(SetSlot(Put(s, t, th), id, index, value), t, th') == Put(SetSlot(s, id, index, value), t, th')
    ensures Put(Put(s, t, th), t, th') == Put(s, t, th')
  {
    assert s.threads[t := th][t := th'] == s.threads[t := th'];
  }

  /** A step that only moves thread `t` does not change where it is going. */
  lemma SameEnd(s: State, s': State, t: nat, th: Thread, th1: Thread)
    requires Locking(th) && Locking(th1) && th1.index == th.index
    requires Target(Put(s, t, th1), th1) == Target(s, th)
    requires LockEnd(Put(s, t, th1), s', t, th1)
    ensures LockEnd(s, s', t, th)
  {
    hide Target, Inserted, SetSlot, SlotAt, Fits;
    var s1, j, c := Put(s, t, th1), th.index, Target(s, th);
    if c.None? {
      var dest :| Fits(s1, j, dest)
                  && s' == Put(SetSlot(Inserted(s1, j, dest), FreshId(s1), j, -1), t, Held(j));
      PutInserted(s, t, th1, j, dest);
      PutSlot(Inserted(s, j, dest), t, th1, Held(j), FreshId(s), j, -1);
    } else {
      PutSlot(s, t, th1, Held(j), c.value, j, -1);
      PutSlot(s, t, th1, Idle, c.value, j, -1);
    }
  }

  /** The block that `dest` leads to, and the walk from there. */
  lemma WalkFromDest(s: State, index: nat, dest: Dest)
    requires Links(s) && (dest.After? ==> dest.id in s.chain)
    ensures var x, k := Stored(s, dest), Position(s.chain, dest);
            && (x.Some? ==> k < |s.chain| && s.chain[k] == x.value)
            && Covering(s, s.chain[k..], index)
               == if x.None? || StartOf(s, x.value) > index then None
                  else if StartOf(s, x.value) + BLOCK <= index then Covering(s, s.chain[k + 1..], index)
                  else x
  {
    StoredAtPosition(s, dest);
    var k := Position(s.chain, dest);
    if k < |s.chain| { assert s.chain[k..][1..] == s.chain[k + 1..]; }
  }

  lemma PlaceOf(s: State, id: Id)
    requires id in s.chain
    ensures Place(s, id) < |s.chain| && s.chain[Place(s, id)] == id
    ensures Position(s.chain, After(id)) == Place(s, id) + 1
  {
    PositionFound(s.chain, After(id));
  }

  lemma WalkFromPlace(s: State, index: nat, id: Id)
    requires id in s.chain && StartOf(s, id) <= index
    ensures var k := Place(s, id);
            && k < |s.chain|
            && Covering(s, s.chain[k..], index)
               == if StartOf(s, id) + BLOCK <= index then Covering(s, s.chain[k + 1..], index) else Some(id)
  {
    PlaceOf(s, id);
    var k := Place(s, id);
    assert s.chain[k..][0] == id && s.chain[k..][1..] == s.chain[k + 1..];
  }

  /** One step of a lock call that neither takes a slot nor puts in a block. */
  lemma StepsNearer(s: State, t: nat, th: Thread)
    requires Inv(s) && t in s.threads && s.threads[t] == th && (th.Load? || th.Scan?)
    requires th.Scan? ==> !Inserts(s, th)
    ensures var s1 := Next(s, OwnStep(th, t)); var th1 := s1.threads[t];
            && s1 == Put(s, t, th1) && Locking(th1) && th1.index == th.index
            && Target(s1, th1) == Target(s, th) && Enough(s1, th1) < Enough(s, th)
  {
    if th.Load? {
      LoadsNearer(s, t, th);
    } else if UsesSeen(s, th) {
      SeenNearer(s, t, th);
    } else {
      ReloadNearer(s, t, th);
    }
  }

  lemma SameCoverings(s: State, s1: State)
    requires s1.chain == s.chain && s1.blocks == s.blocks
    ensures forall k: nat, j: nat :: k <= |s.chain| ==> Covering(s1, s.chain[k..], j) == Covering(s, s.chain[k..], j)
  {
    forall k: nat, j: nat | k <= |s.chain| ensures Covering(s1, s.chain[k..], j) == Covering(s, s.chain[k..], j) {
      CoverSame(s, s1, s.chain[k..], j);
    }
  }

  lemma LoadsNearer(s: State, t: nat, th: Thread)
    requires Inv(s) && t in s.threads && s.threads[t] == th && th.Load?
    ensures var s1 := Next(s, OwnStep(th, t)); var th1 := s1.threads[t];
            && s1 == Put(s, t, th1) && Locking(th1) && th1.index == th.index
            && Target(s1, th1) == Target(s, th) && Enough(s1, th1) < Enough(s, th)
  {
    assert Placed(s, th);
    var th1 := Scan(th.index, th.dest, Stored(s, th.dest));
    SameCoverings(s, Put(s, t, th1));
    WalkFromDest(s, th.index, th.dest);
    if UsesSeen(s, th1) { SeenIsNext(s, th.dest); }
  }

  /** What is stored behind `dest` is at its place. */
  lemma SeenIsNext(s: State, dest: Dest)
    requires Links(s) && Ascending(s) && (dest.After? ==> dest.id in s.chain) && Stored(s, dest).Some?
    ensures Place(s, Stored(s, dest).value) == Position(s.chain, dest)
  {
    StoredAtPosition(s, dest);
    var k, id := Position(s.chain, dest), Stored(s, dest).value;
    PlaceOf(s, id);
    var l := Place(s, id);
    assert k < l ==> Before(s, k, l);
    assert l < k ==> Before(s, l, k);
  }

  /** The block that was loaded is the one, or the walk goes on behind it. */
  lemma SeenNearer(s: State, t: nat, th: Thread)
    requires Inv(s) && t in s.threads && s.threads[t] == th && th.Scan? && UsesSeen(s, th)
    ensures var s1 := Next(s, OwnStep(th, t)); var th1 := s1.threads[t];
            && s1 == Put(s, t, th1) && Locking(th1) && th1.index == th.index
            && Target(s1, th1) == Target(s, th) && Enough(s1, th1) < Enough(s, th)
  {
    hide Covering;
    assert Placed(s, th);
    SameCoverings(s, Put(s, t, ScanThread(s, th)));
    WalkFromPlace(s, th.index, th.seen.value);
    PlaceOf(s, th.seen.value);
  }

  /** The exchange fails, and what is there now is loaded. */
  lemma ReloadNearer(s: State, t: nat, th: Thread)
    requires Inv(s) && t in s.threads && s.threads[t] == th && th.Scan? && !UsesSeen(s, th) && !Inserts(s, th)
    ensures var s1 := Next(s, OwnStep(th, t)); var th1 := s1.threads[t];
            && s1 == Put(s, t, th1) && Locking(th1) && th1.index == th.index
            && Target(s1, th1) == Target(s, th) && Enough(s1, th1) < Enough(s, th)
  {
    hide Covering;
    assert Placed(s, th);
    var th1 := ScanThread(s, th);
    SameCoverings(s, Put(s, t, th1));
    WalkFromDest(s, th.index, th.dest);
    if UsesSeen(s, th1) { SeenIsNext(s, th.dest); }
  }

  /** The last step: a slot is taken, or not. */
  lemma TakesLast(s: State, t: nat, th: Thread)
    requires Inv(s) && t in s.threads && s.threads[t] == th && th.Take?
    ensures LockEnd(s, Next(s, Takes(t)), t, th)
    ensures t in Next(s, Takes(t)).threads && !Walking(Next(s, Takes(t)).threads[t])
  {
    assert Placed(s, th);
    WalkFromPlace(s, th.index, th.id);
    var s' := Next(s, Takes(t));
    assert SlotAt(s, th.id, th.index) == 0 ==> s' == Put(SetSlot(s, th.id, th.index, -1), t, Held(th.index));
  }

  /** The last two steps when a block is put in. */
  lemma InsertsLast(s: State, t: nat, th: Thread)
    requires Inv(s) && t in s.threads && s.threads[t] == th && th.Scan? && Inserts(s, th)
    ensures var s1 := Next(s, Scans(t));
            && t in s1.threads && s1.threads[t] == Take(th.index, FreshId(s))
            && LockEnd(s, Next(s1, Takes(t)), t, th)
            && t in Next(s1, Takes(t)).threads && !Walking(Next(s1, Takes(t)).threads[t])
  {
    assert Placed(s, th);
    WalkFromDest(s, th.index, th.dest);
    var s1, i, j := Inserted(s, th.index, th.dest), FreshId(s), th.index;
    InsertedBlocks(s, j, th.dest);
    assert SlotAt(s1, i, j) == 0;
    assert Fits(s, j, th.dest);
    assert Next(s, Scans(t)) == Put(s1, t, Take(j, i));
    assert SetSlot(Put(s1, t, Take(j, i)), i, j, -1) == Put(SetSlot(s1, i, j, -1), t, Take(j, i));
    assert Next(Next(s, Scans(t)), Takes(t)) == Put(SetSlot(s1, i, j, -1), t, Held(j));
  }

  /** A lock call ends, wherever it stands. */
  lemma {:induction false} LockEnds(s: State, t: nat, th: Thread, steps: nat)
    requires Inv(s) && t in s.threads && s.threads[t] == th && Locking(th) && Enough(s, th) <= steps
    ensures LockEnd(s, Alone(s, t, steps), t, th)
    decreases steps
  {
    hide Alone, LockEnd, Target, Enough, Inv, Next, Inserts;
    EnoughIsSome(s, th);
    OneStep(s, t, steps);
    var s1 := Next(s, OwnStep(th, t));
    if th.Take? {
      TakesLast(s, t, th);
      Ended(s1, t, steps - 1);
    } else if th.Scan? && Inserts(s, th) {
      InsertsLast(s, t, th);
      OneStep(s1, t, steps - 1);
      Ended(Next(s1, Takes(t)), t, steps - 2);
    } else {
      StepsNearer(s, t, th);
      ListStep(s, OwnStep(th, t));
      LockEnds(s1, t, s1.threads[t], steps - 1);
      SameEnd(s, Alone(s1, t, steps - 1), t, th, s1.threads[t]);
    }
  }

  lemma EnoughIsSome(s: State, th: Thread)
    requires Locking(th)
    ensures 0 < Enough(s, th) <= 2 * |s.chain| + 3
    ensures th.Scan? ==> 1 < Enough(s, th)
  {
  }

  /** In the terms of a map from index to lock count: a call of `logdb_log_lock`
      gets the slot if and only if it is free. A block that it puts in empties its
      128 slots for all walks to come. */
  lemma LockCall(s: State, t: nat, j: nat)
    requires Inv(s) && Enabled(s, Lock(t, j))
    ensures var s' := Alone(Next(s, Lock(t, j)), t, 2 * |s.chain| + 3);
            && t in s'.threads && s'.threads == s.threads[t := s'.threads[t]]
            && s'.threads[t] == (if Value(s, j) == 0 then Held(j) else Idle)
            && Covering(s', s'.chain, j).Some?
            && forall i: nat :: Value(s', i) == if i == j && Value(s, j) == 0 then -1
                                                else if Covering(s, s.chain, j).None? && j <= i < j + 128 then 0
                                                else Value(s, i)
  {
    hide Alone, Inv, LockEnd, Enough;
    var th := Load(j, Head);
    var s0 := Next(s, Lock(t, j));
    ListStep(s, Lock(t, j));
    EnoughIsSome(s0, th);
    LockEnds(s0, t, th, 2 * |s.chain| + 3);
    StartOver(s, s0, t, j);
    EndOnMap(s, Alone(s0, t, 2 * |s.chain| + 3), t, j);
  }

  lemma StartOver(s: State, s0: State, t: nat, j: nat)
    requires s0 == Put(s, t, Load(j, Head))
    ensures Target(s0, Load(j, Head)) == Covering(s, s.chain, j) == Covering(s0, s0.chain, j)
  {
    hide Covering;
    assert Position(s0.chain, Head) == 0 && s.chain[0..] == s.chain;
    CoverSame(s, s0, s.chain, j);
  }

  lemma EndOnMap(s: State, s': State, t: nat, j: nat)
    requires Inv(s) && LockEnd(Put(s, t, Load(j, Head)), s', t, Load(j, Head))
    ensures t in s'.threads && s'.threads == s.threads[t := s'.threads[t]]
    ensures s'.threads[t] == if Value(s, j) == 0 then Held(j) else Idle
    ensures Covering(s', s'.chain, j).Some?
    ensures forall i: nat :: Value(s', i) == if i == j && Value(s, j) == 0 then -1
                                             else if Covering(s, s.chain, j).None? && j <= i < j + 128 then 0
                                             else Value(s, i)
  {
    hide Inv, Covering, LockEnd;
    var th, c := Load(j, Head), Covering(s, s.chain, j);
    StartOver(s, Put(s, t, th), t, j);
    if c.None? {
      EndNew(s, s', t, j);
    } else if SlotAt(s, c.value, j) == 0 {
      EndTaken(s, s', t, j, c.value);
    } else {
      EndRefused(s, s', t, j, c.value);
    }
  }

  lemma EndTaken(s: State, s': State, t: nat, j: nat, id: Id)
    requires Inv(s) && Covering(s, s.chain, j) == Some(id) && SlotAt(s, id, j) == 0
    requires Target(Put(s, t, Load(j, Head)), Load(j, Head)) == Some(id)
    requires LockEnd(Put(s, t, Load(j, Head)), s', t, Load(j, Head))
    ensures s'.threads == s.threads[t := Held(j)] && Covering(s', s'.chain, j) == Some(id)
    ensures forall i: nat :: Value(s', i) == if i == j then -1 else Value(s, i)
  {
    hide Covering, Target;
    PutSlot(s, t, Load(j, Head), Held(j), id, j, -1);
    SetCovered(s, id, j, -1);
    SameMap(SetSlot(s, id, j, -1), s');
  }

  lemma EndRefused(s: State, s': State, t: nat, j: nat, id: Id)
    requires Covering(s, s.chain, j) == Some(id) && SlotAt(s, id, j) != 0
    requires Target(Put(s, t, Load(j, Head)), Load(j, Head)) == Some(id)
    requires LockEnd(Put(s, t, Load(j, Head)), s', t, Load(j, Head))
    ensures s'.threads == s.threads[t := Idle] && Covering(s', s'.chain, j) == Some(id)
    ensures forall i: nat :: Value(s', i) == Value(s, i)
  {
    hide Covering, Target;
    PutSlot(s, t, Load(j, Head), Idle, id, j, -1);
    SameMap(s, s');
  }

  lemma EndNew(s: State, s': State, t: nat, j: nat)
    requires Inv(s) && Covering(s, s.chain, j).None?
    requires Target(Put(s, t, Load(j, Head)), Load(j, Head)).None?
    requires LockEnd(Put(s, t, Load(j, Head)), s', t, Load(j, Head))
    ensures s'.threads == s.threads[t := Held(j)] && Covering(s', s'.chain, j) == Some(FreshId(s))
    ensures forall i: nat :: Value(s', i) == if i == j then -1 else if j <= i < j + 128 then 0 else Value(s, i)
  {
    hide Covering, LockEnd, Target, Inserted, SetSlot, Value, Fits;
    var dest := NewAt(s, s', t, j);
    var s1, id := Inserted(s, j, dest), FreshId(s);
    OnNewBlock(s, j, dest);
    SameMap(SetSlot(s1, id, j, -1), s');
    ThreadsKept(s, j, dest, id);
  }

  lemma NewAt(s: State, s': State, t: nat, j: nat) returns (dest: Dest)
    requires Target(Put(s, t, Load(j, Head)), Load(j, Head)).None?
    requires LockEnd(Put(s, t, Load(j, Head)), s', t, Load(j, Head))
    ensures Fits(s, j, dest) && s' == Put(SetSlot(Inserted(s, j, dest), FreshId(s), j, -1), t, Held(j))
  {
    hide Target, Inserted, SetSlot, Fits;
    var s0 := Put(s, t, Load(j, Head));
    dest :| Fits(s0, j, dest) && s' == Put(SetSlot(Inserted(s0, j, dest), FreshId(s0), j, -1), t, Held(j));
    PutInserted(s, t, Load(j, Head), j, dest);
    PutSlot(Inserted(s, j, dest), t, Load(j, Head), Held(j), FreshId(s), j, -1);
  }

  lemma OnNewBlock(s: State, j: nat, dest: Dest)
    requires Links(s) && Ascending(s) && Fits(s, j, dest)
    ensures var s1 := SetSlot(Inserted(s, j, dest), FreshId(s), j, -1);
            && Covering(s1, s1.chain, j) == Some(FreshId(s))
            && forall i: nat :: Value(s1, i) == if i == j then -1 else if j <= i < j + 128 then 0 else Value(s, i)
  {
    hide Covering, Inserted, Value, Links, Ascending, Fits;
    var s1, id := Inserted(s, j, dest), FreshId(s);
    forall i: nat ensures Value(s1, i) == if j <= i < j + 128 then 0 else Value(s, i) {
      InsertTakesOver(s, j, dest, i);
    }
    InsertTakesOver(s, j, dest, j);
    InsertLinks(s, j, dest);
    SetCovered(s1, id, j, -1);
  }

  lemma ThreadsKept(s: State, j: nat, dest: Dest, id: Id)
    ensures SetSlot(Inserted(s, j, dest), id, j, -1).threads == s.threads
  {
  }

  /** As long as no insertion has taken over an entry in use, the walk of a thread
      comes, from wherever it stands, to the block that covers its index. */
  lemma TargetCovers(s: State, t: nat)
    requires Consistent(s) && t in s.threads && Locking(s.threads[t])
    ensures Target(s, s.threads[t]) == Covering(s, s.chain, s.threads[t].index)
  {
    hide Covering;
    var th := s.threads[t];
    assert Placed(s, th) && ThreadOk(s, th);
    FromWithin(s, th);
    var k := From(s, th);
    assert s.chain == s.chain[..k] + s.chain[k..];
    if th.Take? || UsesSeen(s, th) {
      var id := if th.Take? then th.id else th.seen.value;
      PlaceOf(s, id);
      WalkFromPlace(s, th.index, id);
      if !Covers(s, id, th.index) {
        EndBefore(s, k, th.index);
        CoverSkip(s, s.chain[..k], s.chain[k..], th.index);
      }
    } else {
      StoredAtPosition(s, th.dest);
      if k > 0 { EndBefore(s, k - 1, th.index); }
      CoverSkip(s, s.chain[..k], s.chain[k..], th.index);
    }
  }

  /** What comes before a block that ends below `j` ends below it, too. */
  lemma EndBefore(s: State, k: nat, j: nat)
    requires Ascending(s) && k < |s.chain| && StartOf(s, s.chain[k]) + BLOCK <= j
    ensures forall i :: 0 <= i <= k ==> StartOf(s, s.chain[i]) + BLOCK <= j
  {
    forall i | 0 <= i <= k ensures StartOf(s, s.chain[i]) + BLOCK <= j {
      if i < k { assert Before(s, i, k); }
    }
  }

  // ----------------------------------------------------------- unlocking

  /** The walk of an unlock call comes to the block that covers the index, if it did
      not start above it. */
  lemma {:induction false} FindEnds(s: State, t: nat, th: Thread, steps: nat)
    requires Inv(s) && t in s.threads && s.threads[t] == th && th.Find? && Covering(s, s.chain, th.index).Some?
    requires StartOf(s, th.id) <= StartOf(s, Covering(s, s.chain, th.index).value)
    requires |s.chain| - Place(s, th.id) <= steps
    ensures var c := Covering(s, s.chain, th.index).value;
            Alone(s, t, steps) == Put(SetSlot(s, c, th.index, SlotAt(s, c, th.index) + 1), t, Idle)
    decreases steps
  {
    hide Alone, Covering, SetSlot, SlotAt, Position;
    assert Placed(s, th);
    PlaceOf(s, th.id);
    OneStep(s, t, steps);
    WalkFinds(s, th.id, th.index);
    var s1, c := Next(s, Finds(t)), Covering(s, s.chain, th.index).value;
    if StartOf(s, th.id) + BLOCK <= th.index {
      ListStep(s, Finds(t));
      SameMap(s, s1);
      SeenIsNext(s, After(th.id));
      FindEnds(s1, t, s1.threads[t], steps - 1);
      PutSlot(s, t, s1.threads[t], Idle, c, th.index, SlotAt(s, c, th.index) + 1);
    } else {
      Ended(s1, t, steps - 1);
    }
  }

  /** A call of `logdb_log_unlock` by a thread that holds `j` frees its slot. */
  lemma UnlockCall(s: State, t: nat, j: nat)
    requires Consistent(s) && t in s.threads && s.threads[t] == Held(j)
    ensures Enabled(s, Unlock(t))
    ensures var s' := Alone(Next(s, Unlock(t)), t, |s.chain|);
            && s'.threads == s.threads[t := Idle]
            && forall i: nat :: Value(s', i) == if i == j then 0 else Value(s, i)
  {
    hide Alone, Covering, SetSlot;
    assert ThreadOk(s, s.threads[t]);
    HeadIsFirst(s, j);
    var s1 := Next(s, Unlock(t));
    ListStep(s, Unlock(t));
    SameMap(s, s1);
    var c := Covering(s, s.chain, j).value;
    FindEnds(s1, t, s1.threads[t], |s.chain|);
    PutSlot(s, t, s1.threads[t], Idle, c, j, 0);
    SetCovered(s, c, j, 0);
    SameMap(SetSlot(s, c, j, 0), Put(SetSlot(s, c, j, 0), t, Idle));
    assert SetSlot(s, c, j, 0).threads == s.threads by { OnlySlots(s, c, j); }
  }

  lemma OnlySlots(s: State, c: Id, j: nat)
    ensures SetSlot(s, c, j, 0).threads == s.threads
  {
  }
}
