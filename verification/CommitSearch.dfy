// The backward walk of `logdb_lease_acquire_write`: it stays within the log in
// every run, and how it ends when nobody interferes.
module CommitSearch {
  import opened Layout
  import opened CommitProtocol
  import opened CommitLocks
  import opened CommitRefinement
  import opened SearchSpec

  lemma {:induction false} BoundsRun(s: State, actions: seq<Action>)
    requires Bounds(s) && IsRun(s, actions)
    ensures Bounds(After(s, actions))
    decreases |actions|
  {
    if actions != [] {
      BoundsStep(s, actions[0]);
      BoundsRun(Next(s, actions[0]), actions[1..]);
    }
  }

  /** In every reachable state of the code as it is: the subtraction of `visited`
      does not wrap, a pass looks at four entries at most, and every entry that is
      looked at or chosen exists. */
  lemma SearchStaysInBounds(actions: seq<Action>, t: nat)
    requires IsRun(Init(), actions) && t in After(Init(), actions).threads
    ensures var s := After(Init(), actions);
            var th := s.threads[t];
            && th.visited <= MAX_WALK
            && (th.pc.Walk? ==> FindEndThread(s, th).index == |s.log| - th.visited)
            && (th.pc.Look? && th.index > 0 && th.visited < MAX_WALK ==> th.index - 1 < |s.log|)
            && (th.pc.Locate? ==> LocateThread(s, th).index < |s.log|)
            && (!Searching(th.pc) ==> th.index < |s.log|)
  {
    BoundsRun(Init(), actions);
    var s := After(Init(), actions);
    var th := s.threads[t];
    assert ThreadBounds(s, th);
    assert |s.log| <= MAX_SECTIONS;
    if th.pc.Locate? { assert s.position[th.proc] <= |s.log|; }
  }

  // ---------------------------------------------------------------- alone

  /** What thread `t` does next while it looks for a section. */
  function Turn(pc: Pc, t: nat): Action {
    match pc
    case Walk => FindEnd(t)
    case Look => LookBack(t)
    case Extend => AppendEntry(t)
    case Locate => FindAppended(t)
    case TakeSlot => TrySlot(t)
    case TakeRecord => TryRecord(t)
    case GiveBack => ReturnSlot(t)
    case _ => CheckAgain(t)
  }

  predicate Seeking(s: State, t: nat) {
    t in s.threads
    && var pc := s.threads[t].pc;
       || pc.Walk? || pc.Look? || pc.Extend? || pc.Locate?
       || pc.TakeSlot? || pc.TakeRecord? || pc.GiveBack? || pc.Recheck?
  }

  /** Left alone, thread `t` gets a lease within `fuel` steps, of which at most
      `passes` start a walk and at most `appends` append an entry. */
  predicate GetsLease(s: State, t: nat, fuel: nat, passes: nat, appends: nat)
    decreases fuel
  {
    || At(s, t, Write)
    || (fuel > 0 && Seeking(s, t) && Enabled(s, Turn(s.threads[t].pc, t))
        && (At(s, t, Walk) ==> passes > 0) && (At(s, t, Extend) ==> appends > 0)
        && GetsLease(Next(s, Turn(s.threads[t].pc, t)), t, fuel - 1,
                     if At(s, t, Walk) then passes - 1 else passes, if At(s, t, Extend) then appends - 1 else appends))
  }

  /** Somebody else's lock keeps process `proc` away from entry `i`. */
  predicate Blocked(s: State, proc: nat, i: nat) {
    Slot(s, proc, i) != 0 || (i in s.records && s.records[i] != proc)
  }

  lemma FromRecheck(s: State, t: nat, passes: nat, appends: nat)
    requires At(s, t, Recheck) && HasRoom(s, s.threads[t])
    ensures GetsLease(s, t, 1, passes, appends)
  {
    assert At(Next(s, CheckAgain(t)), t, Write);
  }

  lemma FromTakeRecord(s: State, t: nat, passes: nat, appends: nat)
    requires At(s, t, TakeRecord) && HasRoom(s, s.threads[t])
    requires s.threads[t].index in s.records ==> s.records[s.threads[t].index] == s.threads[t].proc
    ensures GetsLease(s, t, 2, passes, appends)
  {
    FromRecheck(Next(s, TryRecord(t)), t, passes, appends);
  }

  lemma FromFreeSlot(s: State, t: nat, passes: nat, appends: nat)
    requires At(s, t, TakeSlot) && HasRoom(s, s.threads[t]) && !Blocked(s, s.threads[t].proc, s.threads[t].index)
    ensures GetsLease(s, t, 3, passes, appends)
  {
    FromTakeRecord(Next(s, TrySlot(t)), t, passes, appends);
  }

  /** Locks are on existing entries only. */
  ghost predicate LocksExist(s: State, proc: nat) {
    forall i: nat :: Blocked(s, proc, i) ==> i < |s.log|
  }

  ghost predicate CanExtend(s: State, th: Thread) {
    |s.log| < MAX_SECTIONS && 0 < |th.txn| <= SECTION_SIZE && LocksExist(s, th.proc)
  }

  /** The entries that somebody else's lock keeps a process away from. */
  ghost function LockedFor(s: State, proc: nat): set<nat> {
    set i: nat | i < |s.log| && Blocked(s, proc, i)
  }

  lemma FromExtend(s: State, t: nat, passes: nat, appends: nat)
    requires At(s, t, Extend) && CanExtend(s, s.threads[t]) && appends > 0
    ensures GetsLease(s, t, 5, passes, appends)
  {
    var s1 := Next(s, AppendEntry(t));
    var s2 := Next(s1, FindAppended(t));
    assert !Blocked(s, s.threads[t].proc, |s.log|);
    assert s2.threads[t].index == |s.log| && s2.log[|s.log|] == 0;
    assert Slot(s2, s.threads[t].proc, |s.log|) == Slot(s, s.threads[t].proc, |s.log|) && s2.records == s.records;
    FromFreeSlot(s2, t, passes, appends - 1);
    assert GetsLease(s1, t, 4, passes, appends - 1);
  }

  lemma {:induction false} MoreFuel(s: State, t: nat, fuel: nat, more: nat, passes: nat, appends: nat)
    requires GetsLease(s, t, fuel, passes, appends) && fuel <= more
    ensures GetsLease(s, t, more, passes, appends)
    decreases fuel
  {
    if !At(s, t, Write) {
      MoreFuel(Next(s, Turn(s.threads[t].pc, t)), t, fuel - 1, more - 1,
               if At(s, t, Walk) then passes - 1 else passes, if At(s, t, Extend) then appends - 1 else appends);
    }
  }

  // One turn each, then a lease.

  lemma LookTurn(s: State, t: nat, fuel: nat, passes: nat, appends: nat)
    requires At(s, t, Look) && GetsLease(Put(s, t, LookThread(s, s.threads[t])), t, fuel, passes, appends)
    ensures GetsLease(s, t, fuel + 1, passes, appends)
  {
    assert Next(s, LookBack(t)) == Put(s, t, LookThread(s, s.threads[t]));
  }

  function Walking(s: State, t: nat): State
    requires t in s.threads
  {
    Put(SetPosition(s, s.threads[t].proc, |s.log|), t, FindEndThread(s, s.threads[t]))
  }

  lemma WalkTurn(s: State, t: nat, fuel: nat, passes: nat, appends: nat)
    requires At(s, t, Walk) && GetsLease(Walking(s, t), t, fuel, passes, appends)
    ensures GetsLease(s, t, fuel + 1, passes + 1, appends)
  {
    assert Next(s, FindEnd(t)) == Walking(s, t);
  }

  lemma SlotTurn(s: State, t: nat, fuel: nat, passes: nat, appends: nat)
    requires At(s, t, TakeSlot) && GetsLease(TakeSlotStep(s, t), t, fuel, passes, appends)
    ensures GetsLease(s, t, fuel + 1, passes, appends)
  {
    assert Next(s, TrySlot(t)) == TakeSlotStep(s, t);
  }

  lemma RecordTurn(s: State, t: nat, fuel: nat, passes: nat, appends: nat)
    requires At(s, t, TakeRecord) && GetsLease(TakeRecordStep(s, t), t, fuel, passes, appends)
    ensures GetsLease(s, t, fuel + 1, passes, appends)
  {
    assert Next(s, TryRecord(t)) == TakeRecordStep(s, t);
  }

  lemma ReturnTurn(s: State, t: nat, fuel: nat, passes: nat, appends: nat)
    requires At(s, t, GiveBack) && GetsLease(FreeSlotStep(s, t, Walk), t, fuel, passes, appends)
    ensures GetsLease(s, t, fuel + 1, passes, appends)
  {
    assert Next(s, ReturnSlot(t)) == FreeSlotStep(s, t, Walk);
  }

  /** Neither the log nor a lock has changed, as far as process `proc` can see. */
  ghost predicate SameView(s: State, s1: State, proc: nat) {
    s1.records == s.records && s1.log == s.log && forall i: nat :: Slot(s1, proc, i) == Slot(s, proc, i)
  }

  lemma SameLocked(s: State, s1: State, proc: nat)
    requires SameView(s, s1, proc)
    ensures LockedFor(s1, proc) == LockedFor(s, proc)
    ensures LocksExist(s, proc) ==> LocksExist(s1, proc)
    ensures forall i: nat :: Blocked(s1, proc, i) <==> Blocked(s, proc, i)
  {
    forall i: nat ensures Blocked(s1, proc, i) == Blocked(s, proc, i) { assert Slot(s1, proc, i) == Slot(s, proc, i); }
  }

  // ------------------------------------------------- enough for a lease

  /** The entry that this walk comes to is free, or a later walk ends. */
  ghost predicate WalkEnds(s: State, th: Thread, index: nat, visited: nat, walks: nat) {
    var c := WalkFrom(s.log, |th.txn|, index, visited);
    c.Nothing? || c.index !in LockedFor(s, th.proc) || Ends(s.log, |th.txn|, LockedFor(s, th.proc), c.visited, walks)
  }

  ghost predicate SearchEnds(s: State, th: Thread, walks: nat) {
    Ends(s.log, |th.txn|, LockedFor(s, th.proc), th.visited, walks)
  }

  lemma {:induction false} FromLook(s: State, t: nat, th: Thread, walks: nat)
    requires At(s, t, Look) && th == s.threads[t] && CanExtend(s, th)
    requires th.visited <= MAX_WALK && th.index + th.visited <= |s.log|
    requires WalkEnds(s, th, th.index, th.visited, walks)
    ensures GetsLease(s, t, 13 - th.visited + 14 * walks, walks, 1)
    decreases walks, 2, MAX_WALK - th.visited
  {
    hide GetsLease, LockedFor, LocksExist, Ends, Blocked;
    var th1 := LookThread(s, th);
    var s1 := Put(s, t, th1);
    var fuel := 12 - th.visited + 14 * walks;
    PutView(s, t, th1, th.proc);
    SameLocked(s, s1, th.proc);
    if th.index == 0 || th.visited >= MAX_WALK {
      FromExtend(s1, t, walks, 1);
      MoreFuel(s1, t, 5, fuel, walks, 1);
    } else if HasRoom(s, th.(index := th.index - 1)) {
      FromTakeSlot(s1, t, walks);
      MoreFuel(s1, t, 3 + 14 * walks, fuel, walks, 1);
    } else {
      FromLook(s1, t, th1, walks);
    }
    LookTurn(s, t, fuel, walks, 1);
  }

  lemma PutView(s: State, t: nat, th: Thread, proc: nat)
    ensures SameView(s, Put(s, t, th), proc)
  {
    forall i: nat ensures Slot(Put(s, t, th), proc, i) == Slot(s, proc, i) {}
  }

  lemma FromWalk(s: State, t: nat, th: Thread, walks: nat)
    requires At(s, t, Walk) && th == s.threads[t] && CanExtend(s, th)
    requires th.visited <= |s.log| && SearchEnds(s, th, walks)
    ensures GetsLease(s, t, 14 * walks, walks, 1)
    decreases walks, 0
  {
    hide GetsLease, LockedFor, LocksExist;
    var s1 := Walking(s, t);
    assert forall i: nat :: Slot(s1, th.proc, i) == Slot(s, th.proc, i);
    SameLocked(s, s1, th.proc);
    FromLook(s1, t, s1.threads[t], walks - 1);
    WalkTurn(s, t, 14 * walks - 1, walks - 1, 1);
  }

  /** The lock is taken, or the thread goes back to the walk. */
  lemma FromTakeSlot(s: State, t: nat, walks: nat)
    requires At(s, t, TakeSlot) && CanExtend(s, s.threads[t]) && HasRoom(s, s.threads[t])
    requires s.threads[t].visited <= |s.log|
    requires s.threads[t].index !in LockedFor(s, s.threads[t].proc) || SearchEnds(s, s.threads[t], walks)
    ensures GetsLease(s, t, 3 + 14 * walks, walks, 1)
    decreases walks, 1, 2
  {
    hide GetsLease, Ends;
    var th := s.threads[t];
    if !Blocked(s, th.proc, th.index) {
      FromFreeSlot(s, t, walks, 1);
      MoreFuel(s, t, 3, 3 + 14 * walks, walks, 1);
    } else {
      assert th.index in LockedFor(s, th.proc);
      FromLockedSlot(s, t, th, walks);
    }
  }

  lemma FromLockedSlot(s: State, t: nat, th: Thread, walks: nat)
    requires At(s, t, TakeSlot) && th == s.threads[t] && CanExtend(s, th) && Blocked(s, th.proc, th.index)
    requires th.visited <= |s.log| && SearchEnds(s, th, walks)
    ensures GetsLease(s, t, 3 + 14 * walks, walks, 1)
    decreases walks, 1, 1
  {
    hide GetsLease, Ends, LockedFor, LocksExist;
    var s1 := TakeSlotStep(s, t);
    if Slot(s, th.proc, th.index) != 0 {
      assert forall i: nat :: Slot(s1, th.proc, i) == Slot(s, th.proc, i);
      SameLocked(s, s1, th.proc);
      FromWalk(s1, t, s1.threads[t], walks);
      MoreFuel(s1, t, 14 * walks, 2 + 14 * walks, walks, 1);
    } else {
      FromLockedRecord(s, t, th, walks);
    }
    SlotTurn(s, t, 2 + 14 * walks, walks, 1);
  }

  /** Another process has the record lock: the slot is given back. */
  lemma FromLockedRecord(s: State, t: nat, th: Thread, walks: nat)
    requires At(s, t, TakeSlot) && th == s.threads[t] && CanExtend(s, th) && Blocked(s, th.proc, th.index)
    requires th.visited <= |s.log| && SearchEnds(s, th, walks) && Slot(s, th.proc, th.index) == 0
    ensures GetsLease(TakeSlotStep(s, t), t, 2 + 14 * walks, walks, 1)
    decreases walks, 1, 0
  {
    hide GetsLease, Ends, LockedFor, LocksExist;
    var s1 := TakeSlotStep(s, t);
    var s2 := TakeRecordStep(s1, t);
    var s3 := FreeSlotStep(s2, t, Walk);
    assert forall i: nat :: Slot(s3, th.proc, i) == Slot(s, th.proc, i);
    SameLocked(s, s3, th.proc);
    FromWalk(s3, t, s3.threads[t], walks);
    ReturnTurn(s2, t, 14 * walks, walks, 1);
    RecordTurn(s1, t, 1 + 14 * walks, walks, 1);
  }

  // --------------------------------------------------- needed for a lease

  /** `locked` are the entries blocked for the thread, apart from the slot that it
      has just taken itself. */
  ghost predicate LocksAre(s: State, th: Thread, locked: set<nat>) {
    forall i: nat :: i < |s.log| ==>
      (i in locked <==> if OwnSlot(th, i) then Foreign(s, th.proc, i) else Blocked(s, th.proc, i))
  }

  predicate OwnSlot(th: Thread, i: nat) {
    (th.pc.TakeRecord? || th.pc.GiveBack?) && i == th.index
  }

  predicate Foreign(s: State, proc: nat, i: nat) {
    i in s.records && s.records[i] != proc
  }

  /** What must hold, at each point of the search, for it to end within `walks` walks. */
  predicate Hopeful(s: State, th: Thread, locked: set<nat>, walks: nat) {
    match th.pc
    case Walk => Ends(s.log, |th.txn|, locked, th.visited, walks)
    case Look =>
      var c := WalkFrom(s.log, |th.txn|, th.index, th.visited);
      c.Nothing? || c.index !in locked || Ends(s.log, |th.txn|, locked, c.visited, walks)
    case TakeSlot => th.index !in locked || Ends(s.log, |th.txn|, locked, th.visited, walks)
    case TakeRecord => th.index !in locked || Ends(s.log, |th.txn|, locked, th.visited, walks)
    case GiveBack => Ends(s.log, |th.txn|, locked, th.visited, walks)
    case _ => true
  }

  predicate InSearch(s: State, th: Thread) {
    && |s.log| <= MAX_SECTIONS && th.visited <= MAX_WALK
    && (th.pc.Walk? ==> th.visited <= |s.log|)
    && (th.pc.Look? ==> th.index + th.visited <= |s.log|)
    && (th.pc.TakeSlot? || th.pc.TakeRecord? || th.pc.GiveBack? ==> th.index < |s.log| && th.visited <= |s.log|)
    && (th.pc.TakeRecord? || th.pc.GiveBack? ==> Slot(s, th.proc, th.index) == -1)
    && (th.pc.GiveBack? ==> Foreign(s, th.proc, th.index))
  }

  predicate Early(pc: Pc) {
    pc.Walk? || pc.Look? || pc.TakeSlot? || pc.TakeRecord? || pc.GiveBack?
  }

  /** The turn stays within the search, and leaves no more hope than there was. */
  ghost predicate GoodTurn(s: State, th: Thread, s1: State, th1: Thread, locked: set<nat>, fuel: nat) {
    && s1.log == s.log
    && (Early(th1.pc) ==> InSearch(s1, th1) && LocksAre(s1, th1, locked))
    && (fuel > 0 && Hopeful(s1, th1, locked, fuel - 1) ==> Hopeful(s, th, locked, fuel))
  }

  lemma OneMore(log: seq<nat>, size: nat, locked: set<nat>, visited: nat, fuel: nat)
    ensures fuel > 0 && Ends(log, size, locked, visited, fuel - 1) ==> Ends(log, size, locked, visited, fuel)
  {
    if fuel > 0 && Ends(log, size, locked, visited, fuel - 1) { EndsMore(log, size, locked, visited, fuel - 1, fuel); }
  }

  lemma SameLocksAre(s: State, th: Thread, s1: State, th1: Thread, locked: set<nat>)
    requires LocksAre(s, th, locked) && SameView(s, s1, th.proc) && th1.proc == th.proc
    requires !th.pc.TakeRecord? && !th.pc.GiveBack? && !th1.pc.TakeRecord? && !th1.pc.GiveBack?
    ensures LocksAre(s1, th1, locked)
  {
    SameLocked(s, s1, th.proc);
  }

  lemma GoodWalk(s: State, t: nat, th: Thread, locked: set<nat>, fuel: nat)
    requires At(s, t, Walk) && th == s.threads[t] && InSearch(s, th) && LocksAre(s, th, locked)
    ensures GoodTurn(s, th, Walking(s, t), FindEndThread(s, th), locked, fuel)
  {
    hide Blocked, Foreign, LocksAre, WalkFrom;
    var s1 := Walking(s, t);
    assert forall i: nat :: Slot(s1, th.proc, i) == Slot(s, th.proc, i);
    SameLocksAre(s, th, s1, FindEndThread(s, th), locked);
  }

  lemma GoodLook(s: State, t: nat, th: Thread, locked: set<nat>, fuel: nat)
    requires At(s, t, Look) && th == s.threads[t] && InSearch(s, th) && LocksAre(s, th, locked)
    ensures GoodTurn(s, th, Put(s, t, LookThread(s, th)), LookThread(s, th), locked, fuel)
  {
    hide Blocked, Foreign, LocksAre, Ends;
    var th1 := LookThread(s, th);
    PutView(s, t, th1, th.proc);
    SameLocksAre(s, th, Put(s, t, th1), th1, locked);
    var c := WalkFrom(s.log, |th.txn|, th.index, th.visited);
    if c.Chosen? { OneMore(s.log, |th.txn|, locked, c.visited, fuel); }
  }

  lemma GoodTakeSlot(s: State, t: nat, th: Thread, locked: set<nat>, fuel: nat)
    requires At(s, t, TakeSlot) && th == s.threads[t] && InSearch(s, th) && LocksAre(s, th, locked)
    ensures GoodTurn(s, th, TakeSlotStep(s, t), TakeSlotStep(s, t).threads[t], locked, fuel)
  {
    hide WalkFrom, Ends;
    var s1 := TakeSlotStep(s, t);
    OneMore(s.log, |th.txn|, locked, th.visited, fuel);
    if Slot(s, th.proc, th.index) != 0 {
      PutView(s, t, s1.threads[t], th.proc);
      SameLocksAre(s, th, s1, s1.threads[t], locked);
    } else {
      forall i: nat | i < |s.log| && i != th.index ensures Blocked(s1, th.proc, i) <==> Blocked(s, th.proc, i) {
        assert Slot(s1, th.proc, i) == Slot(s, th.proc, i);
      }
    }
  }

  lemma GoodTakeRecord(s: State, t: nat, th: Thread, locked: set<nat>, fuel: nat)
    requires At(s, t, TakeRecord) && th == s.threads[t] && InSearch(s, th) && LocksAre(s, th, locked)
    ensures GoodTurn(s, th, TakeRecordStep(s, t), TakeRecordStep(s, t).threads[t], locked, fuel)
  {
    hide WalkFrom, Ends;
    OneMore(s.log, |th.txn|, locked, th.visited, fuel);
    var s1 := TakeRecordStep(s, t);
    if Foreign(s, th.proc, th.index) {
      forall i: nat ensures Blocked(s1, th.proc, i) <==> Blocked(s, th.proc, i) {
        assert Slot(s1, th.proc, i) == Slot(s, th.proc, i);
      }
    }
  }

  lemma GoodGiveBack(s: State, t: nat, th: Thread, locked: set<nat>, fuel: nat)
    requires At(s, t, GiveBack) && th == s.threads[t] && InSearch(s, th) && LocksAre(s, th, locked)
    ensures GoodTurn(s, th, FreeSlotStep(s, t, Walk), th.(pc := Walk), locked, fuel)
  {
    hide WalkFrom, Ends;
    OneMore(s.log, |th.txn|, locked, th.visited, fuel);
    var s1 := FreeSlotStep(s, t, Walk);
    forall i: nat | i != th.index ensures Blocked(s1, th.proc, i) <==> Blocked(s, th.proc, i) {
      assert Slot(s1, th.proc, i) == Slot(s, th.proc, i);
    }
  }

  lemma EveryTurnIsGood(s: State, t: nat, th: Thread, locked: set<nat>, fuel: nat)
    requires t in s.threads && th == s.threads[t] && Early(th.pc) && InSearch(s, th) && LocksAre(s, th, locked)
    ensures Enabled(s, Turn(th.pc, t))
    ensures t in Next(s, Turn(th.pc, t)).threads
    ensures GoodTurn(s, th, Next(s, Turn(th.pc, t)), Next(s, Turn(th.pc, t)).threads[t], locked, fuel)
  {
    hide GoodTurn, InSearch, LocksAre;
    match th.pc
    case Walk => GoodWalk(s, t, th, locked, fuel);
    case Look => GoodLook(s, t, th, locked, fuel);
    case TakeSlot => GoodTakeSlot(s, t, th, locked, fuel);
    case TakeRecord => GoodTakeRecord(s, t, th, locked, fuel);
    case GiveBack => GoodGiveBack(s, t, th, locked, fuel);
  }

  lemma {:induction false} OnlyHopefulGets(s: State, t: nat, th: Thread, locked: set<nat>, fuel: nat, passes: nat,
                                             appends: nat)
    requires t in s.threads && th == s.threads[t] && GetsLease(s, t, fuel, passes, appends)
    requires Early(th.pc) && InSearch(s, th) && LocksAre(s, th, locked)
    ensures Hopeful(s, th, locked, fuel)
    decreases fuel
  {
    hide InSearch, LocksAre, Next, Enabled;
    EveryTurnIsGood(s, t, th, locked, fuel);
    var s1 := Next(s, Turn(th.pc, t));
    if Early(s1.threads[t].pc) {
      OnlyHopefulGets(s1, t, s1.threads[t], locked, fuel - 1, if th.pc.Walk? then passes - 1 else passes, appends);
    }
  }

  // ------------------------------------------------------------- exactness

  /** Left alone with the locks as they are, the search of a thread ends in a lease
      if and only if one of its next five walks finds an entry that nobody has
      locked, or finds none with room. It then needs five walks and one append. */
  lemma SearchEndsExactly(s: State, t: nat)
    requires At(s, t, Walk) && CanExtend(s, s.threads[t])
    requires s.threads[t].visited <= MAX_WALK && s.threads[t].visited <= |s.log|
    ensures (exists fuel, passes, appends :: GetsLease(s, t, fuel, passes, appends)) <==> SearchEnds(s, s.threads[t], 5)
    ensures SearchEnds(s, s.threads[t], 5) ==> GetsLease(s, t, 70, 5, 1)
  {
    hide GetsLease, Ends;
    var th := s.threads[t];
    var locked := LockedFor(s, th.proc);
    if SearchEnds(s, th, 5) { FromWalk(s, t, th, 5); }
    forall fuel: nat, passes: nat, appends: nat | GetsLease(s, t, fuel, passes, appends) ensures SearchEnds(s, th, 5) {
      OnlyHopefulGets(s, t, th, locked, fuel, passes, appends);
      FiveWalksDecide(s.log, |th.txn|, locked, th.visited, fuel);
    }
  }

  /** With at most one entry locked by others two walks and one new entry are enough. */
  lemma AloneGetsLease(s: State, t: nat, j: nat)
    requires At(s, t, Walk) && s.threads[t].visited == 0 && CanExtend(s, s.threads[t])
    requires forall i :: i in LockedFor(s, s.threads[t].proc) ==> i == j
    ensures GetsLease(s, t, 28, 2, 1)
  {
    OneLockedEnds(s.log, |s.threads[t].txn|, LockedFor(s, s.threads[t].proc), j);
    FromWalk(s, t, s.threads[t], 2);
  }

  // ------------------------------------------------------------ every run

  /** Threads have locked existing entries only. */
  predicate HeldExist(s: State) {
    forall t :: t in s.threads ==> HeldWithin(s.threads[t], |s.log|)
  }

  predicate HeldWithin(th: Thread, n: nat) {
    forall i :: i in th.held ==> i < n
  }

  lemma HeldStep(s: State, a: Action)
    requires Bounds(s) && HeldExist(s) && Enabled(s, a)
    ensures HeldExist(Next(s, a))
  {
    hide Next, Enabled, Bounds;
    if a.PowerFailure? {
      NoThreadsLeft(s);
    } else {
      LogOnlyGrows(s, a);
      forall u | u in Next(s, a).threads ensures HeldWithin(Next(s, a).threads[u], |Next(s, a).log|) {
        HeldBefore(s, a, u);
      }
    }
  }

  lemma NoThreadsLeft(s: State)
    ensures HeldExist(Next(s, PowerFailure))
  {
  }

  lemma LogOnlyGrows(s: State, a: Action)
    requires Enabled(s, a) && !a.PowerFailure?
    ensures |s.log| <= |Next(s, a).log|
  {
    hide Patch, HasRoom, StoredLength, Slot, Reach;
  }

  /** A thread has the entries that it had, and maybe the one it just locked. */
  lemma HeldBefore(s: State, a: Action, u: nat)
    requires Bounds(s) && Enabled(s, a) && !a.PowerFailure? && u in Next(s, a).threads && HeldExist(s)
    ensures HeldWithin(Next(s, a).threads[u], |s.log|)
  {
    hide Next, Enabled, HeldWithin, Shape;
    if u in s.threads { assert HeldWithin(s.threads[u], |s.log|); }
    if a.TryRecord? {
      HeldByRecord(s, a, u);
    } else if a.TrySlot? || a.ReturnSlot? || a.FreeRecord? || a.FreeSlot? {
      HeldByLocks(s, a, u);
    } else if a.Begin? || a.FindEnd? || a.LookBack? || a.AppendEntry? || a.FindAppended? || a.CheckAgain? || a.Fail? {
      HeldBySearch(s, a, u);
    } else {
      HeldByRest(s, a, u);
    }
  }

  lemma HeldByRecord(s: State, a: Action, u: nat)
    requires Bounds(s) && Enabled(s, a) && a.TryRecord?
    requires u in Next(s, a).threads && (u in s.threads ==> HeldWithin(s.threads[u], |s.log|))
    ensures HeldWithin(Next(s, a).threads[u], |s.log|)
  {
    hide Shape;
    assert ThreadBounds(s, s.threads[a.t]);
  }

  lemma HeldByLocks(s: State, a: Action, u: nat)
    requires Enabled(s, a) && (a.TrySlot? || a.ReturnSlot? || a.FreeRecord? || a.FreeSlot?)
    requires u in Next(s, a).threads && (u in s.threads ==> HeldWithin(s.threads[u], |s.log|))
    ensures HeldWithin(Next(s, a).threads[u], |s.log|)
  {
    hide Slot;
  }

  lemma HeldBySearch(s: State, a: Action, u: nat)
    requires a.Begin? || a.FindEnd? || a.LookBack? || a.AppendEntry? || a.FindAppended? || a.CheckAgain? || a.Fail?
    requires Enabled(s, a) && u in Next(s, a).threads && (u in s.threads ==> HeldWithin(s.threads[u], |s.log|))
    ensures HeldWithin(Next(s, a).threads[u], |s.log|)
  {
    hide HasRoom;
  }

  lemma HeldByRest(s: State, a: Action, u: nat)
    requires a.WriteChunk? || a.SyncDatabase? || a.WriteEntry? || a.SyncLogFile?
             || a.BackgroundEntry? || a.BackgroundBytes? || a.Crash?
    requires Enabled(s, a) && u in Next(s, a).threads && (u in s.threads ==> HeldWithin(s.threads[u], |s.log|))
    ensures HeldWithin(Next(s, a).threads[u], |s.log|)
  {
    hide Patch, Reach, StoredLength;
  }

  lemma {:induction false} HeldRun(s: State, actions: seq<Action>)
    requires Bounds(s) && HeldExist(s) && IsRun(s, actions)
    ensures HeldExist(After(s, actions))
    decreases |actions|
  {
    hide Bounds, HeldExist, Next, Enabled;
    if actions != [] {
      BoundsStep(s, actions[0]);
      HeldStep(s, actions[0]);
      HeldRun(Next(s, actions[0]), actions[1..]);
    }
  }

  /** Locks at either level are on existing entries. */
  lemma LocksAreOnEntries(s: State, proc: nat)
    requires Bounds(s) && HeldExist(s) && LockInv(s)
    ensures LocksExist(s, proc)
  {
    forall i: nat | Blocked(s, proc, i) ensures i < |s.log| {
      if Slot(s, proc, i) != 0 {
        assert SlotOwned(s, proc, i);
        var t :| t in s.threads && s.threads[t].proc == proc && Owns(s.threads[t], i);
        assert HeldWithin(s.threads[t], |s.log|) && ThreadBounds(s, s.threads[t]);
      } else {
        assert HasHolder(s, s.records[i], i);
        var t :| t in s.threads && s.threads[t].proc == s.records[i] && i in s.threads[t].held;
        assert HeldWithin(s.threads[t], |s.log|);
      }
    }
  }

  lemma InitBounds()
    ensures Bounds(Init()) && HeldExist(Init()) && LockInv(Init())
  {
  }

  /** So, wherever a run leaves a thread that is about to walk: left alone from there
      on, its search ends if and only if one of five walks ends it, unless there is
      no room for another entry. */
  lemma SearchOfRunEndsExactly(actions: seq<Action>, t: nat)
    requires IsRun(Init(), actions) && At(After(Init(), actions), t, Walk)
    requires |After(Init(), actions).log| < MAX_SECTIONS
    ensures var s := After(Init(), actions);
            (exists fuel, passes, appends :: GetsLease(s, t, fuel, passes, appends)) <==> SearchEnds(s, s.threads[t], 5)
  {
    var s := After(Init(), actions);
    InitBounds();
    BoundsRun(Init(), actions);
    HeldRun(Init(), actions);
    LockInvRun(Init(), actions);
    assert ThreadBounds(s, s.threads[t]);
    LocksAreOnEntries(s, s.threads[t].proc);
    SearchEndsExactly(s, t);
  }
}
