// Runs of the code, from the initial state, that reach each of its failures: an
// unsafe grant, a filled section, an abandoned lock, a search without end.
module CommitTraces {
  import opened Bytes
  import opened Layout
  import opened CommitProtocol
  import opened CommitRefinement
  import opened CommitTheorems
  import opened SearchSpec
  import opened CommitSearch

  ghost predicate Reachable(s: State) {
    exists actions :: GuardedRun(Init(), actions) && After(Init(), actions) == s
  }

  lemma {:induction false} RunExtends(s: State, actions: seq<Action>, a: Action)
    requires GuardedRun(s, actions)
    requires Enabled(After(s, actions), a) && Guarded(After(s, actions), a)
    ensures GuardedRun(s, actions + [a]) && After(s, actions + [a]) == Next(After(s, actions), a)
    decreases |actions|
  {
    if actions == [] {
      assert [a][1..] == [] && actions + [a] == [a];
      assert GuardedRun(Next(s, a), []);
    } else {
      RunExtends(Next(s, actions[0]), actions[1..], a);
      assert (actions + [a])[1..] == actions[1..] + [a];
    }
  }

  lemma Step(s: State, a: Action) returns (s': State)
    requires Reachable(s) && Enabled(s, a) && Guarded(s, a)
    ensures s' == Next(s, a) && Reachable(s')
  {
    var actions :| GuardedRun(Init(), actions) && After(Init(), actions) == s;
    RunExtends(Init(), actions, a);
    s' := Next(s, a);
  }

  /** Nothing but thread `t` and its position changed. */
  predicate OnlyThread(s: State, s': State, t: nat, th': Thread) {
    && s'.log == s.log && s'.store == s.store && s'.slots == s.slots && s'.records == s.records
    && s'.threads == s.threads[t := th']
  }

  type Slots = map<(nat, nat), int>

  function SlotIn(slots: Slots, proc: nat, index: nat): int {
    if (proc, index) in slots then slots[(proc, index)] else 0
  }

  /** One slot changed. */
  ghost predicate SlotSet(slots: Slots, slots': Slots, proc: nat, index: nat, value: int) {
    forall p: nat, i: nat :: SlotIn(slots', p, i) == if p == proc && i == index then value else SlotIn(slots, p, i)
  }

  ghost predicate NoSlots(slots: Slots, proc: nat) {
    forall i: nat :: SlotIn(slots, proc, i) == 0
  }

  lemma NoneTaken(s: State, proc: nat)
    requires NoSlots(s.slots, proc)
    ensures forall i: nat :: Slot(s, proc, i) == 0
  {
    forall i: nat ensures Slot(s, proc, i) == 0 { assert SlotIn(s.slots, proc, i) == 0; }
  }

  lemma Begins(s: State, t: nat, proc: nat, txn: Txn) returns (s': State)
    requires Reachable(s) && t !in s.threads && 0 < |txn| <= SECTION_SIZE
    ensures Reachable(s') && OnlyThread(s, s', t, Thread(proc, Walk, txn, 0, 0, 0, 0, {}))
  {
    s' := Step(s, Begin(t, proc, txn));
  }

  lemma FindsEnd(s: State, t: nat, th: Thread) returns (s': State)
    requires Reachable(s) && t in s.threads && s.threads[t] == th
    requires th.pc.Walk? && th.visited <= |s.log| <= MAX_SECTIONS
    ensures Reachable(s')
    ensures OnlyThread(s, s', t, th.(pc := Look, index := |s.log| - th.visited, visited := 0))
  {
    s' := Step(s, FindEnd(t));
  }

  lemma LooksBack(s: State, t: nat, th: Thread) returns (s': State)
    requires Reachable(s) && t in s.threads && s.threads[t] == th
    requires th.pc.Look? && th.visited == 0 && th.index <= |s.log|
    requires th.index > 0 ==> HasRoom(s, th.(index := th.index - 1))
    ensures Reachable(s')
    ensures OnlyThread(s, s', t, if th.index == 0 then th.(pc := Extend)
                                else th.(pc := TakeSlot, index := th.index - 1, visited := 1,
                                         start := s.log[th.index - 1]))
  {
    s' := Step(s, LookBack(t));
  }

  lemma AppendsAndFinds(s: State, t: nat, th: Thread) returns (s': State)
    requires Reachable(s) && t in s.threads && s.threads[t] == th && th.pc.Extend? && |s.log| < MAX_SECTIONS
    ensures Reachable(s')
    ensures s'.log == s.log + [0] && s'.store == s.store + [[]] && s'.slots == s.slots && s'.records == s.records
    ensures s'.threads == s.threads[t := th.(pc := TakeSlot, index := |s.log|, start := 0, visited := 1)]
  {
    var s1 := Appends(s, t, th);
    s' := FindsAppended(s1, t, th.(pc := Locate));
    assert s'.threads == s.threads[t := th.(pc := TakeSlot, index := |s.log|, start := 0, visited := 1)];
  }

  lemma Appends(s: State, t: nat, th: Thread) returns (s': State)
    requires Reachable(s) && t in s.threads && s.threads[t] == th && th.pc.Extend? && |s.log| < MAX_SECTIONS
    ensures Reachable(s')
    ensures s'.log == s.log + [0] && s'.store == s.store + [[]] && s'.slots == s.slots && s'.records == s.records
    ensures s'.threads == s.threads[t := th.(pc := Locate)]
    ensures th.proc in s'.position && s'.position[th.proc] == |s.log| + 1
  {
    s' := Step(s, AppendEntry(t));
  }

  lemma FindsAppended(s: State, t: nat, th: Thread) returns (s': State)
    requires Reachable(s) && t in s.threads && s.threads[t] == th && th.pc.Locate?
    requires th.proc in s.position && s.position[th.proc] == |s.log| && 0 < |s.log| <= MAX_SECTIONS
    ensures Reachable(s')
    ensures OnlyThread(s, s', t, th.(pc := TakeSlot, index := |s.log| - 1, start := 0, visited := 1))
  {
    s' := Step(s, FindAppended(t));
  }

  lemma TakesSlot(s: State, t: nat, th: Thread) returns (s': State)
    requires Reachable(s) && t in s.threads && s.threads[t] == th
    requires th.pc.TakeSlot? && SlotIn(s.slots, th.proc, th.index) == 0
    ensures Reachable(s')
    ensures s'.log == s.log && s'.store == s.store && s'.records == s.records
    ensures SlotSet(s.slots, s'.slots, th.proc, th.index, -1)
    ensures s'.threads == s.threads[t := th.(pc := TakeRecord)]
  {
    s' := Step(s, TrySlot(t));
  }

  lemma TakesRecord(s: State, t: nat, th: Thread) returns (s': State)
    requires Reachable(s) && t in s.threads && s.threads[t] == th
    requires th.pc.TakeRecord? && th.index !in s.records
    ensures Reachable(s')
    ensures s'.log == s.log && s'.store == s.store && s'.slots == s.slots
    ensures s'.records == s.records[th.index := th.proc]
    ensures s'.threads == s.threads[t := th.(pc := Recheck, held := th.held + {th.index})]
  {
    s' := Step(s, TryRecord(t));
  }

  /** Another process has the record lock. */
  lemma IsRefused(s: State, t: nat, th: Thread) returns (s': State)
    requires Reachable(s) && t in s.threads && s.threads[t] == th
    requires th.pc.TakeRecord? && th.index in s.records && s.records[th.index] != th.proc
    ensures Reachable(s')
    ensures OnlyThread(s, s', t, th.(pc := GiveBack))
  {
    s' := Step(s, TryRecord(t));
  }

  lemma ReturnsSlot(s: State, t: nat, th: Thread) returns (s': State)
    requires Reachable(s) && t in s.threads && s.threads[t] == th && th.pc.GiveBack?
    ensures Reachable(s')
    ensures s'.log == s.log && s'.store == s.store && s'.records == s.records
    ensures SlotSet(s.slots, s'.slots, th.proc, th.index, SlotIn(s.slots, th.proc, th.index) + 1)
    ensures s'.threads == s.threads[t := th.(pc := Walk)]
  {
    s' := Step(s, ReturnSlot(t));
  }

  /** The re-check finds the section too full. */
  lemma FindsItFull(s: State, t: nat, th: Thread) returns (s': State)
    requires Reachable(s) && t in s.threads && s.threads[t] == th
    requires th.pc.Recheck? && !HasRoom(s, th)
    ensures Reachable(s')
    ensures OnlyThread(s, s', t, th.(pc := Walk))
  {
    s' := Step(s, CheckAgain(t));
  }

  lemma IsGranted(s: State, t: nat, th: Thread) returns (s': State)
    requires Reachable(s) && t in s.threads && s.threads[t] == th
    requires th.pc.Recheck? && FreshLease(s, th)
    ensures Reachable(s')
    ensures OnlyThread(s, s', t, th.(pc := Write, done := 0))
  {
    s' := Step(s, CheckAgain(t));
  }

  lemma WritesAll(s: State, t: nat, th: Thread) returns (s': State)
    requires Reachable(s) && t in s.threads && s.threads[t] == th
    requires th.pc.Write? && th.done == 0 && |th.txn| > 0
    ensures Reachable(s')
    ensures OnlyThread(s, s', t, th.(pc := SyncDb, done := |th.txn|))
  {
    s' := Step(s, WriteChunk(t, |th.txn|));
  }

  lemma Syncs(s: State, t: nat, th: Thread) returns (s': State)
    requires Reachable(s) && t in s.threads && s.threads[t] == th
    requires th.pc.SyncDb?
    ensures Reachable(s')
    ensures OnlyThread(s, s', t, th.(pc := Publish))
  {
    s' := Step(s, SyncDatabase(t));
  }

  lemma Publishes(s: State, t: nat, th: Thread) returns (s': State)
    requires Reachable(s) && t in s.threads && s.threads[t] == th
    requires th.pc.Publish? && th.index < |s.log| == |s.store|
    ensures Reachable(s')
    ensures s'.slots == s.slots && s'.records == s.records
    ensures s'.log == s.log[th.index := StoredLength(th.start + th.done)]
    ensures s'.store == s.store[th.index := s.store[th.index] + [th.txn]]
    ensures s'.threads == s.threads[t := th.(pc := SyncLog)]
  {
    s' := Step(s, WriteEntry(t));
  }

  lemma SyncsLog(s: State, t: nat, th: Thread) returns (s': State)
    requires Reachable(s) && t in s.threads && s.threads[t] == th
    requires th.pc.SyncLog?
    ensures Reachable(s')
    ensures OnlyThread(s, s', t, th.(pc := DropRecord))
  {
    s' := Step(s, SyncLogFile(t, true));
  }

  lemma DropsRecord(s: State, t: nat, th: Thread) returns (s': State)
    requires Reachable(s) && t in s.threads && s.threads[t] == th
    requires th.pc.DropRecord?
    ensures Reachable(s')
    ensures s'.log == s.log && s'.store == s.store && s'.slots == s.slots
    ensures s'.records == s.records - {th.index}
    ensures s'.threads == s.threads[t := th.(pc := DropSlot, held := th.held - {th.index})]
  {
    s' := Step(s, FreeRecord(t));
  }

  lemma DropsSlot(s: State, t: nat, th: Thread) returns (s': State)
    requires Reachable(s) && t in s.threads && s.threads[t] == th
    requires th.pc.DropSlot?
    ensures Reachable(s')
    ensures s'.log == s.log && s'.store == s.store && s'.records == s.records
    ensures SlotSet(s.slots, s'.slots, th.proc, th.index, SlotIn(s.slots, th.proc, th.index) + 1)
    ensures s'.threads == s.threads[t := th.(pc := Idle)]
  {
    s' := Step(s, FreeSlot(t));
  }

  /** Thread 1 appends section 0 and is about to lock it. */
  lemma FirstChooses(a: Txn) returns (s: State)
    requires 0 < |a| <= SECTION_SIZE
    ensures Reachable(s)
    ensures s.log == [0] && s.store == [[]] && s.slots == map[] && s.records == map[]
    ensures s.threads == map[1 := Thread(0, TakeSlot, a, 0, 1, 0, 0, {})]
  {
    assert GuardedRun(Init(), []) && After(Init(), []) == Init();
    s := Begins(Init(), 1, 0, a);
    s := FindsEnd(s, 1, s.threads[1]);
    s := LooksBack(s, 1, s.threads[1]);
    s := AppendsAndFinds(s, 1, s.threads[1]);
  }

  /** Then thread 2 of another process chooses the same section. Both have read
      length 0. */
  lemma BothChoose(a: Txn, b: Txn) returns (s: State)
    requires 0 < |a| <= SECTION_SIZE && 0 < |b| <= SECTION_SIZE
    ensures Reachable(s)
    ensures s.log == [0] && s.store == [[]] && s.slots == map[] && s.records == map[]
    ensures 1 in s.threads && s.threads[1] == Thread(0, TakeSlot, a, 0, 1, 0, 0, {})
    ensures 2 in s.threads && s.threads[2] == Thread(1, TakeSlot, b, 0, 1, 0, 0, {})
  {
    hide Reachable;
    s := FirstChooses(a);
    s := Begins(s, 2, 1, b);
    s := FindsEnd(s, 2, s.threads[2]);
    s := LooksBack(s, 2, s.threads[2]);
  }

  /** Thread 1 takes the locks and writes. */
  lemma FirstWrites(a: Txn, b: Txn) returns (s: State)
    requires 0 < |a| < SECTION_SIZE && 0 < |b| <= SECTION_SIZE
    ensures Reachable(s)
    ensures s.log == [0] && s.store == [[]] && NoSlots(s.slots, 1) && s.records == map[0 := 0]
    ensures 1 in s.threads && s.threads[1] == Thread(0, Publish, a, 0, 1, 0, |a|, {0})
    ensures 2 in s.threads && s.threads[2] == Thread(1, TakeSlot, b, 0, 1, 0, 0, {})
  {
    hide Reachable;
    s := BothChoose(a, b);
    assert NoSlots(s.slots, 1);
    s := TakesSlot(s, 1, s.threads[1]);
    s := TakesRecord(s, 1, s.threads[1]);
    s := IsGranted(s, 1, s.threads[1]);
    s := WritesAll(s, 1, s.threads[1]);
    s := Syncs(s, 1, s.threads[1]);
  }

  /** It publishes and unlocks. */
  lemma FirstCommits(a: Txn, b: Txn) returns (s: State)
    requires 0 < |a| < SECTION_SIZE && 0 < |b| <= SECTION_SIZE
    ensures Reachable(s)
    ensures s.log == [|a|] && NoSlots(s.slots, 1) && s.records == map[]
    ensures 2 in s.threads && s.threads[2] == Thread(1, TakeSlot, b, 0, 1, 0, 0, {})
  {
    hide Reachable;
    s := FirstWrites(a, b);
    s := Publishes(s, 1, s.threads[1]);
    assert s.log == [|a|] && NoSlots(s.slots, 1);
    s := SyncsLog(s, 1, s.threads[1]);
    assert NoSlots(s.slots, 1);
    s := DropsRecord(s, 1, s.threads[1]);
    assert NoSlots(s.slots, 1);
    s := DropsSlot(s, 1, s.threads[1]);
  }

  /** Thread 2 takes the locks after it. */
  lemma SecondLocks(a: Txn, b: Txn) returns (s: State)
    requires 0 < |a| < SECTION_SIZE && 0 < |b| <= SECTION_SIZE
    ensures Reachable(s)
    ensures s.log == [|a|]
    ensures 2 in s.threads && s.threads[2] == Thread(1, Recheck, b, 0, 1, 0, 0, {0})
  {
    hide Reachable;
    s := FirstCommits(a, b);
    s := TakesSlot(s, 2, s.threads[2]);
    s := TakesRecord(s, 2, s.threads[2]);
  }

  lemma ReachableHasData(s: State)
    requires Reachable(s)
    ensures Data(s)
  {
    var actions :| GuardedRun(Init(), actions) && After(Init(), actions) == s;
    InitData();
    DataRun(Init(), actions);
  }

  /** The code is about to grant a lease that starts at an outdated length: over
      bytes that another process has committed since it was read. */
  lemma StaleGrantIsReachable() returns (s: State)
    ensures Reachable(s) && Data(s)
    ensures At(s, 2, Recheck) && HasRoom(s, s.threads[2]) && s.threads[2].start != s.log[s.threads[2].index]
    ensures !SafeGrant(s, 2)
  {
    s := SecondLocks([7], [8]);
    ReachableHasData(s);
    GrantIsSafeExactlyWhenFresh(s, 2);
  }

  /** The code is about to grant a lease that fills a fresh section to the last
      byte, so that its entry will say that it is empty. */
  lemma FullSectionGrantIsReachable() returns (s: State)
    ensures Reachable(s) && Data(s)
    ensures At(s, 1, Recheck) && HasRoom(s, s.threads[1]) && s.threads[1].start == s.log[s.threads[1].index]
    ensures |s.threads[1].txn| == SECTION_SIZE && !SafeGrant(s, 1)
  {
    s := FirstChooses(Zeros(SECTION_SIZE));
    s := TakesSlot(s, 1, s.threads[1]);
    s := TakesRecord(s, 1, s.threads[1]);
    ReachableHasData(s);
    GrantIsSafeExactlyWhenFresh(s, 1);
  }

  /** Another process fills the section between the walk and the re-check: the
      lock is abandoned, and no continuation without the end of that process lets
      anyone have the section again. */
  lemma AbandonedLockIsReachable(rest: seq<Action>) returns (s: State)
    ensures Reachable(s) && Leaked(s, 2, 0) && At(s, 2, Walk)
    ensures IsRun(s, rest) && PowerFailure !in rest && Crash(1) !in rest ==>
              Leaked(After(s, rest), 2, 0)
              && forall u :: u in After(s, rest).threads && 0 in After(s, rest).threads[u].held ==> u == 2
  {
    s := SecondLocks(Zeros(SECTION_SIZE - 1), [8, 9]);
    s := FindsItFull(s, 2, s.threads[2]);
    ReachableHasData(s);
    if IsRun(s, rest) && PowerFailure !in rest && Crash(1) !in rest { LeakedLockStays(s, rest, 2, 0); }
  }

  // ------------------------------------------------- a search without end

  /** Thread 1 of process 0 holds the only section. */
  lemma OneLocked() returns (s: State)
    ensures Reachable(s)
    ensures s.log == [0] && s.store == [[]] && s.records == map[0 := 0] && NoSlots(s.slots, 1) && NoSlots(s.slots, 2)
    ensures s.threads.Keys == {1}
  {
    hide Reachable;
    s := FirstChooses([7]);
    assert NoSlots(s.slots, 1) && NoSlots(s.slots, 2);
    s := TakesSlot(s, 1, s.threads[1]);
    s := TakesRecord(s, 1, s.threads[1]);
  }

  /** Thread 2 of process 1 chooses it too and is refused. */
  lemma OneRefused() returns (s: State)
    ensures Reachable(s)
    ensures s.log == [0] && s.store == [[]] && s.records == map[0 := 0] && NoSlots(s.slots, 1) && NoSlots(s.slots, 2)
    ensures s.threads.Keys == {1, 2} && s.threads[2] == Thread(1, Walk, [8], 0, 1, 0, 0, {})
  {
    hide Reachable;
    s := OneLocked();
    s := Begins(s, 2, 1, [8]);
    s := FindsEnd(s, 2, s.threads[2]);
    s := LooksBack(s, 2, s.threads[2]);
    assert NoSlots(s.slots, 1) && NoSlots(s.slots, 2);
    s := RefusedAtOnce(s);
  }

  lemma RefusedAtOnce(s0: State) returns (s: State)
    requires Reachable(s0) && s0.records == map[0 := 0] && NoSlots(s0.slots, 1) && NoSlots(s0.slots, 2)
    requires s0.threads.Keys == {1, 2} && s0.threads[2] == Thread(1, TakeSlot, [8], 0, 1, 0, 0, {})
    ensures Reachable(s) && s.log == s0.log && s.store == s0.store && s.records == map[0 := 0]
    ensures NoSlots(s.slots, 1) && NoSlots(s.slots, 2)
    ensures s.threads.Keys == {1, 2} && s.threads[2] == Thread(1, Walk, [8], 0, 1, 0, 0, {})
  {
    hide Reachable;
    s := TakesSlot(s0, 2, s0.threads[2]);
    s := IsRefused(s, 2, s.threads[2]);
    s := ReturnsSlot(s, 2, s.threads[2]);
  }

  /** It walks on, appends a section and locks that; a thread of process 2 begins. */
  lemma TwoLocked() returns (s: State)
    ensures Reachable(s)
    ensures s.log == [0, 0] && s.records == map[0 := 0, 1 := 1] && NoSlots(s.slots, 2)
    ensures 3 in s.threads && s.threads[3] == Thread(2, Walk, [9], 0, 0, 0, 0, {})
  {
    hide Reachable;
    s := OneRefused();
    s := FindsEnd(s, 2, s.threads[2]);
    s := LooksBack(s, 2, s.threads[2]);
    s := AppendsAndFinds(s, 2, s.threads[2]);
    assert NoSlots(s.slots, 1) && NoSlots(s.slots, 2);
    s := LockedAndBegun(s);
  }

  lemma LockedAndBegun(s0: State) returns (s: State)
    requires Reachable(s0) && s0.records == map[0 := 0] && NoSlots(s0.slots, 1) && NoSlots(s0.slots, 2)
    requires s0.threads.Keys == {1, 2} && s0.threads[2] == Thread(1, TakeSlot, [8], 1, 1, 0, 0, {})
    ensures Reachable(s) && s.log == s0.log && s.records == map[0 := 0, 1 := 1] && NoSlots(s.slots, 2)
    ensures 3 in s.threads && s.threads[3] == Thread(2, Walk, [9], 0, 0, 0, 0, {})
  {
    hide Reachable;
    s := TakesSlot(s0, 2, s0.threads[2]);
    assert NoSlots(s.slots, 2);
    s := TakesRecord(s, 2, s.threads[2]);
    assert NoSlots(s.slots, 2);
    s := Begins(s, 3, 2, [9]);
    assert NoSlots(s.slots, 2);
  }

  /** Two sections with room, each locked by another process: alone, thread 3 will
      never get a lease, however long it goes on. */
  lemma EndlessSearchIsReachable() returns (s: State)
    ensures Reachable(s) && At(s, 3, Walk) && s.threads[3].visited == 0
    ensures !(exists fuel, passes, appends :: GetsLease(s, 3, fuel, passes, appends))
  {
    s := TwoLocked();
    var locked := LockedFor(s, 2);
    NoneTaken(s, 2);
    assert forall i: nat :: Blocked(s, 2, i) <==> i < 2;
    assert locked == {0, 1};
    TwoLockedNeverEnd();
    SearchEndsExactly(s, 3);
  }

  lemma TwoLockedNeverEnd()
    ensures !Ends([0, 0], 1, {0, 1}, 0, 5)
  {
    assert Hop([0, 0], 1, 0) == Chosen(1, 1);
    assert WalkFrom([0, 0], 1, 1, 0) == Chosen(0, 1);
    assert Stuck([0, 0], 1, {0, 1}, {0, 1});
    StuckNeverEnds([0, 0], 1, {0, 1}, {0, 1}, 0, 5);
  }
}
