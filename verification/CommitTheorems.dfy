// What the commit protocol guarantees over whole runs, and exactly when.
module CommitTheorems {
  import opened Bytes
  import opened Layout
  import opened CommitProtocol
  import opened CommitLocks
  import opened CommitRefinement

  /** A run in which every lease is granted fresh. */
  predicate GuardedRun(s: State, actions: seq<Action>)
    ensures GuardedRun(s, actions) ==> IsRun(s, actions)
    decreases |actions|
  {
    actions == [] ||
    (Enabled(s, actions[0]) && Guarded(s, actions[0]) && GuardedRun(Next(s, actions[0]), actions[1..]))
  }

  lemma InitData()
    ensures Data(Init())
  {
  }

  lemma {:induction false} DataRun(s: State, actions: seq<Action>)
    requires Data(s) && GuardedRun(s, actions)
    ensures Data(After(s, actions))
    decreases |actions|
  {
    if actions != [] {
      DataStep(s, actions[0]);
      DataRun(Next(s, actions[0]), actions[1..]);
    }
  }

  lemma DataRefines(s: State)
    requires Data(s)
    ensures Refines(s)
  {
    forall i | 0 <= i < |s.log| ensures Committed(s, i) == Flatten(s.store[i]) { assert SectionData(s, i); }
    forall i | 0 <= i < |s.durableLog| ensures DurablyCommitted(s, i) == Flatten(s.durableStore[i]) {
      DurablePrefix(s, i);
    }
  }

  /** Every interleaving of threads, processes, crashes, power failures and
      write-backs keeps both file images equal to the abstract store, and what
      is visible is durable. */
  lemma CommitRefinesStore(actions: seq<Action>)
    requires GuardedRun(Init(), actions)
    ensures var s := After(Init(), actions);
            && Refines(s)
            && (forall i :: 0 <= i < |s.log| ==> s.durableDb[i][..s.log[i]] == Committed(s, i))
            && (forall i :: 0 <= i < |s.durableLog| ==> s.durableStore[i] <= s.store[i])
  {
    InitData();
    DataRun(Init(), actions);
    var s := After(Init(), actions);
    DataRefines(s);
    forall i | 0 <= i < |s.log| ensures s.durableDb[i][..s.log[i]] == Committed(s, i) { assert SectionData(s, i); }
    forall i | 0 <= i < |s.durableLog| ensures s.durableStore[i] <= s.store[i] { assert DurableData(s, i); }
  }

  /** In terms of bytes: the entry write appends the whole transaction to one
      section; no other step changes a committed byte, so a failed commit or a
      process crash changes nothing; a power failure keeps whole transactions. */
  lemma CommitIsAtomicAppend(s: State, a: Action)
    requires Data(s) && Enabled(s, a) && Guarded(s, a)
    ensures var s' := Next(s, a);
            && Data(s')
            && (a.PowerFailure? ==>
                  && |s'.log| == |s.durableStore|
                  && forall i :: 0 <= i < |s'.log| ==>
                       s.durableStore[i] <= s.store[i] && Committed(s', i) == Flatten(s.durableStore[i]))
            && (!a.PowerFailure? ==>
                  && |s.log| <= |s'.log|
                  && (forall i :: 0 <= i < |s.log| ==>
                        Committed(s', i) == if a.WriteEntry? && i == s.threads[a.t].index
                                            then Committed(s, i) + s.threads[a.t].txn else Committed(s, i))
                  && (forall i :: |s.log| <= i < |s'.log| ==> Committed(s', i) == []))
  {
    DataStep(s, a);
    hide Data, Next, Enabled, Guarded, Committed;
    if a.PowerFailure? { WholeTxnsRemain(s); } else { CommittedStep(s, a); }
    ShapeOf(Next(s, a));
  }

  lemma ShapeOf(s: State)
    requires Data(s)
    ensures Shape(s)
  {
  }

  lemma WholeTxnsRemain(s: State)
    requires Data(s) && Data(Next(s, PowerFailure))
    ensures var s' := Next(s, PowerFailure);
            && |s'.log| == |s.durableStore| <= |s.store|
            && forall i :: 0 <= i < |s'.log| ==>
                 s.durableStore[i] <= s.store[i] && Committed(s', i) == Flatten(s.durableStore[i])
  {
    hide LockInv, Recorded;
    var s' := Next(s, PowerFailure);
    forall i | 0 <= i < |s'.log|
      ensures s.durableStore[i] <= s.store[i] && Committed(s', i) == Flatten(s.durableStore[i])
    {
      DurablePrefix(s, i);
    }
  }

  lemma CommittedStep(s: State, a: Action)
    requires Data(s) && Enabled(s, a) && Guarded(s, a) && !a.PowerFailure? && Data(Next(s, a))
    ensures var s' := Next(s, a);
            && |s.log| <= |s'.log|
            && (forall i :: 0 <= i < |s.log| ==>
                  Committed(s', i) == if a.WriteEntry? && i == s.threads[a.t].index
                                      then Committed(s, i) + s.threads[a.t].txn else Committed(s, i))
            && (forall i :: |s.log| <= i < |s'.log| ==> Committed(s', i) == [])
  {
    hide LockInv, Recorded, Next, Guarded;
    var s' := Next(s, a);
    StoreStep(s, a);
    forall i | 0 <= i < |s.log|
      ensures Committed(s', i) == if a.WriteEntry? && i == s.threads[a.t].index
                                  then Committed(s, i) + s.threads[a.t].txn else Committed(s, i)
    {
      assert SectionData(s, i) && SectionData(s', i);
      if a.WriteEntry? { FlattenAppend(s.store[i], s.threads[a.t].txn); }
    }
  }

  /** The abstract step behind each concrete one. */
  lemma StoreStep(s: State, a: Action)
    requires Bounds(s) && Enabled(s, a) && !a.PowerFailure?
    ensures Next(s, a).store ==
            if a.AppendEntry? then s.store + [[]]
            else if a.WriteEntry? then
              var th := s.threads[a.t];
              assert ThreadBounds(s, th);
              s.store[th.index := s.store[th.index] + [th.txn]]
            else s.store
    ensures |Next(s, a).log| == if a.AppendEntry? then |s.log| + 1 else |s.log|
    ensures a.AppendEntry? ==> Next(s, a).log[|s.log|] == 0
  {
    if a.WriteEntry? { assert ThreadBounds(s, s.threads[a.t]); }
  }

  // -------------------------------------------------------------- readers

  /** A read lease taken now covers bytes that no later step of any run changes,
      however far the section is extended meanwhile. */
  lemma {:induction false} ReadLeaseIsStable(s: State, actions: seq<Action>, i: nat)
    requires Data(s) && GuardedRun(s, actions) && i < |s.log|
    requires PowerFailure !in actions
    ensures var s' := After(s, actions);
            && Data(s') && i < |s'.log| && s.log[i] <= s'.log[i]
            && s'.db[i][..s.log[i]] == Committed(s, i)
    decreases |actions|
  {
    hide Next, Enabled, Guarded;
    if actions != [] {
      var a := actions[0];
      var s1 := Next(s, a);
      assert a in actions;
      CommitIsAtomicAppend(s, a);
      PrefixKept(Committed(s, i), Committed(s1, i));
      ReadLeaseIsStable(s1, actions[1..], i);
      var s' := After(s1, actions[1..]);
      assert s'.db[i][..s.log[i]] == s'.db[i][..s1.log[i]][..s.log[i]];
    }
  }

  lemma PrefixKept(a: seq<byte>, b: seq<byte>)
    requires a <= b
    ensures |a| <= |b| && b[..|a|] == a
  {
  }

  /** A transaction that reached the durable log is never lost again, by any
      continuation with any number of crashes and power failures. */
  lemma {:induction false} AcknowledgedSurvives(s: State, actions: seq<Action>, i: nat)
    requires Data(s) && GuardedRun(s, actions) && i < |s.durableLog|
    ensures var s' := After(s, actions);
            && Data(s') && i < |s'.durableLog| && i < |s'.log|
            && s.durableStore[i] <= s'.durableStore[i] <= s'.store[i]
            && Flatten(s.durableStore[i]) <= Committed(s', i)
    decreases |actions|
  {
    if actions != [] {
      DataStep(s, actions[0]);
      DurableGrows(s, actions[0], i);
      AcknowledgedSurvives(Next(s, actions[0]), actions[1..], i);
    }
    var s' := After(s, actions);
    DataRun(s, actions);
    assert DurableData(s', i) && SectionData(s', i);
    FlattenPrefix(s.durableStore[i], s'.store[i]);
  }

  lemma DurableGrows(s: State, a: Action, i: nat)
    requires Data(s) && Enabled(s, a) && Guarded(s, a) && i < |s.durableLog|
    ensures i < |Next(s, a).durableStore| == |Next(s, a).durableLog| && s.durableStore[i] <= Next(s, a).durableStore[i]
  {
    assert DurableData(s, i);
  }

  /** `logdb_txn_commit` returns success after this step: with a successful
      sync, everything published is in the durable log, and the last transaction
      of the section is the one that this thread committed. */
  lemma SyncMakesDurable(s: State, t: nat)
    requires Data(s) && At(s, t, SyncLog)
    ensures var s' := Next(s, SyncLogFile(t, true)); var th := s.threads[t];
            && Data(s') && s'.durableStore == s.store && s'.durableLog == s.log
            && (forall i :: 0 <= i < |s.log| ==> DurablyCommitted(s', i) == Committed(s, i))
            && IsLast(s, th) && th.index < |s'.durableLog|
  {
    DataStep(s, SyncLogFile(t, true));
    forall i | 0 <= i < |s.log| ensures s.durableDb[i][..s.log[i]] == Committed(s, i) { assert SectionData(s, i); }
    assert IsLast(s, s.threads[t]);
  }

  /** A commit that returned success after a successful sync is there for good:
      no continuation with crashes and power failures moves or removes it. */
  lemma SuccessfulCommitSurvives(s: State, t: nat, rest: seq<Action>)
    requires Data(s) && At(s, t, SyncLog) && GuardedRun(Next(s, SyncLogFile(t, true)), rest)
    ensures IsLast(s, s.threads[t])
    ensures var i := s.threads[t].index;
            var s' := After(Next(s, SyncLogFile(t, true)), rest);
            && Data(s') && i < |s'.log| && s.store[i] <= s'.store[i]
            && Flatten(s.store[i]) <= Committed(s', i)
            && s'.store[i][|s.store[i]| - 1] == s.threads[t].txn
  {
    SyncMakesDurable(s, t);
    AcknowledgedSurvives(Next(s, SyncLogFile(t, true)), rest, s.threads[t].index);
  }

  /** Bytes that two threads may write at the same time are disjoint in the
      file, and outside everything committed. */
  lemma LeasesAreDisjoint(s: State, t: nat, u: nat, i: nat)
    requires Data(s) && t in s.threads && u in s.threads && t != u && i < |s.log|
    requires Writing(s.threads[t].pc) && Writing(s.threads[u].pc)
    ensures var a, b := s.threads[t], s.threads[u];
            var from, to := ConnectionOffset(a.index) + a.start, ConnectionOffset(a.index) + a.start + |a.txn|;
            && (to <= ConnectionOffset(b.index) + b.start || ConnectionOffset(b.index) + b.start + |b.txn| <= from)
            && (to <= ConnectionOffset(i) || ConnectionOffset(i) + s.log[i] <= from)
  {
    WritersApart(s, t, u);
    assert LeaseData(s, s.threads[t]) && LeaseData(s, s.threads[u]);
    RangesApart(s.threads[t].index, s.threads[u].index);
    RangesApart(s.threads[t].index, i);
  }

  lemma RangesApart(i: nat, j: nat)
    requires i < MAX_SECTIONS && j < MAX_SECTIONS
    ensures i != j ==>
              || ConnectionOffset(i) + SECTION_SIZE <= ConnectionOffset(j)
              || ConnectionOffset(j) + SECTION_SIZE <= ConnectionOffset(i)
  {
    SectionsShareBytes(i, j);
  }

  // ------------------------------------------------------------ exactness

  /** No continuation whose later grants are fresh reaches a bad state. */
  ghost predicate SafeGrant(s: State, t: nat)
    requires At(s, t, Recheck)
  {
    forall rest :: GuardedRun(Next(s, CheckAgain(t)), rest) ==> Refines(After(Next(s, CheckAgain(t)), rest))
  }

  /** Granting a lease whose start is not the re-read length, or that fills the
      section, is exactly what breaks the protocol. */
  lemma GrantIsSafeExactlyWhenFresh(s: State, t: nat)
    requires Data(s) && At(s, t, Recheck) && HasRoom(s, s.threads[t])
    ensures SafeGrant(s, t) <==> FreshLease(s, s.threads[t])
  {
    var s1 := Next(s, CheckAgain(t));
    if FreshLease(s, s.threads[t]) {
      DataStep(s, CheckAgain(t));
      forall rest | GuardedRun(s1, rest) ensures Refines(After(s1, rest)) {
        DataRun(s1, rest);
        DataRefines(After(s1, rest));
      }
    } else {
      assert ThreadBounds(s, s.threads[t]) && SectionData(s, s.threads[t].index);
      assert |Committed(s, s.threads[t].index)| == s.log[s.threads[t].index];
      StaleGrantBreaks(s, t, s.threads[t]);
    }
  }

  function FinishCommit(t: nat, txn: Txn): seq<Action> {
    [WriteChunk(t, |txn|), SyncDatabase(t), WriteEntry(t)]
  }

  lemma RunOfThree(s: State, s1: State, s2: State, a: Action, b: Action, c: Action)
    requires Enabled(s, a) && Guarded(s, a) && s1 == Next(s, a)
    requires Enabled(s1, b) && Guarded(s1, b) && s2 == Next(s1, b)
    requires Enabled(s2, c) && Guarded(s2, c)
    ensures GuardedRun(s, [a, b, c])
    ensures After(s, [a, b, c]) == Next(s2, c)
  {
    var s3 := Next(s2, c);
    assert [a, b, c][1..] == [b, c] && [b, c][1..] == [c] && [c][1..] == [];
    assert GuardedRun(s3, []) && GuardedRun(s2, [c]) && GuardedRun(s1, [b, c]);
    assert After(s3, []) == s3;
    assert After(s2, [c]) == s3;
    assert After(s1, [b, c]) == s3;
  }

  lemma WholeChunk(s: State, t: nat, th: Thread) returns (s1: State)
    requires At(s, t, Write) && th == s.threads[t] && th.done == 0 && |th.txn| > 0
    ensures Enabled(s, WriteChunk(t, |th.txn|)) && Guarded(s, WriteChunk(t, |th.txn|))
    ensures s1 == Next(s, WriteChunk(t, |th.txn|))
    ensures t in s1.threads && s1.threads[t] == th.(pc := SyncDb, done := |th.txn|)
    ensures s1.log == s.log && s1.store == s.store
  {
    s1 := Put(Written(s, th, |th.txn|), t, WriteThread(th, |th.txn|));
  }

  lemma Synced(s: State, t: nat, th: Thread) returns (s1: State)
    requires At(s, t, SyncDb) && th == s.threads[t]
    ensures Enabled(s, SyncDatabase(t)) && Guarded(s, SyncDatabase(t))
    ensures s1 == Next(s, SyncDatabase(t))
    ensures t in s1.threads && s1.threads[t] == th.(pc := Publish)
    ensures s1.log == s.log && s1.store == s.store
  {
    s1 := Put(s.(durableDb := s.db), t, th.(pc := Publish));
  }

  lemma EntryWritten(s: State, t: nat, th: Thread) returns (s1: State)
    requires At(s, t, Publish) && th == s.threads[t]
    requires th.index < |s.log| == |s.store|
    ensures Enabled(s, WriteEntry(t)) && Guarded(s, WriteEntry(t))
    ensures s1 == Next(s, WriteEntry(t))
    ensures s1.log == s.log[th.index := StoredLength(th.start + th.done)]
    ensures s1.store == s.store[th.index := s.store[th.index] + [th.txn]]
  {
    s1 := Put(Published(s, th), t, th.(pc := SyncLog));
  }

  /** Left alone, a thread that has its lease finishes the commit. */
  lemma FinishRuns(s: State, t: nat, th: Thread) returns (s3: State)
    requires At(s, t, Write) && th == s.threads[t] && th.done == 0 && |th.txn| > 0
    requires th.index < |s.log| == |s.store|
    ensures GuardedRun(s, FinishCommit(t, th.txn)) && After(s, FinishCommit(t, th.txn)) == s3
    ensures s3.log == s.log[th.index := StoredLength(th.start + |th.txn|)]
    ensures s3.store == s.store[th.index := s.store[th.index] + [th.txn]]
  {
    hide Next, Enabled, Guarded, GuardedRun, After, StoredLength;
    var s1 := WholeChunk(s, t, th);
    var s2 := Synced(s1, t, s1.threads[t]);
    s3 := EntryWritten(s2, t, s2.threads[t]);
    RunOfThree(s, s1, s2, WriteChunk(t, |th.txn|), SyncDatabase(t), WriteEntry(t));
  }

  lemma Granted(s: State, t: nat, th: Thread) returns (s1: State)
    requires At(s, t, Recheck) && th == s.threads[t] && HasRoom(s, th)
    ensures s1 == Next(s, CheckAgain(t))
    ensures At(s1, t, Write) && s1.threads[t] == th.(pc := Write, done := 0)
    ensures s1.log == s.log && s1.store == s.store
  {
    s1 := Put(s, t, RecheckThread(s, th));
  }

  lemma StaleGrantBreaks(s: State, t: nat, th: Thread)
    requires At(s, t, Recheck) && th == s.threads[t] && HasRoom(s, th) && !FreshLease(s, th)
    requires |s.log| == |s.store| && |Flatten(s.store[th.index])| == s.log[th.index]
    requires 0 < |th.txn| && th.start + |th.txn| <= SECTION_SIZE
    ensures !SafeGrant(s, t)
  {
    hide Refines, GuardedRun, Next, Enabled, FinishCommit, Flatten;
    var s1 := Granted(s, t, th);
    var s4 := FinishRuns(s1, t, s1.threads[t]);
    FlattenAppend(s.store[th.index], th.txn);
    StoredLengthExact(th.start + |th.txn|);
    if Refines(s4) { EntryIsLength(s4, th.index); }
  }

  lemma EntryIsLength(s: State, i: nat)
    requires Refines(s) && i < |s.log|
    ensures i < |s.store| && |Flatten(s.store[i])| == s.log[i]
  {
    assert |Committed(s, i)| == s.log[i];
  }

  // ----------------------------------------------------------- lost locks

  /** `t` has locked entry `i` at both levels and no longer works on it. */
  predicate Leaked(s: State, t: nat, i: nat) {
    t in s.threads && i in s.threads[t].held && !(Leased(s.threads[t].pc) && s.threads[t].index == i)
  }

  /** Nothing but the end of the process gives an abandoned lock back, so no
      other thread is ever granted the section. */
  lemma {:induction false} LeakedLockStays(s: State, actions: seq<Action>, t: nat, i: nat)
    requires LockInv(s) && IsRun(s, actions) && Leaked(s, t, i)
    requires PowerFailure !in actions && Crash(s.threads[t].proc) !in actions
    ensures var s' := After(s, actions);
            Leaked(s', t, i) && forall u :: u in s'.threads && i in s'.threads[u].held ==> u == t
    decreases |actions|
  {
    if actions == [] {
      forall u | u in s.threads && i in s.threads[u].held ensures u == t {
        assert Owns(s.threads[t], i) && Owns(s.threads[u], i);
        assert ThreadLocks(s, s.threads[t]) && ThreadLocks(s, s.threads[u]);
      }
    } else {
      assert actions[0] in actions;
      assert ThreadLocks(s, s.threads[t]) && Owns(s.threads[t], i);
      LockInvStep(s, actions[0]);
      LeakedStep(s, actions[0], t, i);
      LeakedLockStays(Next(s, actions[0]), actions[1..], t, i);
    }
  }

  /** In every continuation that the process lives to see, `t` still has entry `i`
      locked and does not work on it, and nobody else has it. */
  ghost predicate LostForGood(s: State, t: nat, i: nat)
    requires t in s.threads
  {
    forall rest :: IsRun(s, rest) && PowerFailure !in rest && Crash(s.threads[t].proc) !in rest
                   ==> Leaked(After(s, rest), t, i) && SoleHolder(After(s, rest), t, i)
  }

  predicate SoleHolder(s: State, t: nat, i: nat) {
    forall u :: u in s.threads && i in s.threads[u].held ==> u == t
  }

  /** The re-check loses the section until the process ends if and only if the
      section has no room any more. */
  lemma RecheckLosesExactlyWhenFull(s: State, t: nat)
    requires LockInv(s) && At(s, t, Recheck)
    ensures t in Next(s, CheckAgain(t)).threads
    ensures LostForGood(Next(s, CheckAgain(t)), t, s.threads[t].index) <==> !HasRoom(s, s.threads[t])
  {
    hide HasRoom, IsRun;
    var s1, i := Next(s, CheckAgain(t)), s.threads[t].index;
    assert ThreadLocks(s, s.threads[t]);
    assert Leaked(s1, t, i) <==> !HasRoom(s, s.threads[t]);
    if Leaked(s1, t, i) {
      LockInvStep(s, CheckAgain(t));
      forall rest | IsRun(s1, rest) && PowerFailure !in rest && Crash(s1.threads[t].proc) !in rest
        ensures Leaked(After(s1, rest), t, i) && SoleHolder(After(s1, rest), t, i)
      {
        LeakedLockStays(s1, rest, t, i);
      }
    } else {
      EmptyRun(s1);
      assert !Leaked(After(s1, []), t, i);
    }
  }

  lemma EmptyRun(s: State)
    ensures IsRun(s, []) && After(s, []) == s
  {
  }

  lemma LeakedStep(s: State, a: Action, t: nat, i: nat)
    requires Enabled(s, a) && Leaked(s, t, i) && ThreadLocks(s, s.threads[t])
    requires a != PowerFailure && a != Crash(s.threads[t].proc)
    ensures Leaked(Next(s, a), t, i) && Next(s, a).threads[t].proc == s.threads[t].proc
  {
    assert Owns(s.threads[t], i) && Slot(s, s.threads[t].proc, i) == -1;
    if !a.Crash? && !a.BackgroundEntry? && !a.BackgroundBytes? && a.t == t {
      LeakedOwnStep(s, a, i);
    } else {
      OthersStay(s, a, t);
    }
  }

  /** A step of one thread leaves the program counters of all others alone. */
  lemma OthersStay(s: State, a: Action, t: nat)
    requires Enabled(s, a) && t in s.threads && a != PowerFailure && a != Crash(s.threads[t].proc)
    requires a.Crash? || a.BackgroundEntry? || a.BackgroundBytes? || a.t != t
    ensures t in Next(s, a).threads && Next(s, a).threads[t] == s.threads[t]
  {
    hide Next, Enabled;
    if a.Crash? || a.BackgroundEntry? || a.BackgroundBytes? {
      OthersStayOutside(s, a, t);
    } else if a.TrySlot? || a.TryRecord? || a.ReturnSlot? || a.FreeRecord? || a.FreeSlot? {
      OthersStayLocks(s, a, t);
    } else {
      OthersStayRest(s, a, t);
    }
  }

  lemma OthersStayOutside(s: State, a: Action, t: nat)
    requires Enabled(s, a) && t in s.threads && a != Crash(s.threads[t].proc)
    requires a.Crash? || a.BackgroundEntry? || a.BackgroundBytes?
    ensures t in Next(s, a).threads && Next(s, a).threads[t] == s.threads[t]
  {
    hide Patch, Reach;
  }

  lemma OthersStayLocks(s: State, a: Action, t: nat)
    requires Enabled(s, a) && t in s.threads
    requires (a.TrySlot? || a.TryRecord? || a.ReturnSlot? || a.FreeRecord? || a.FreeSlot?) && a.t != t
    ensures t in Next(s, a).threads && Next(s, a).threads[t] == s.threads[t]
  {
    hide Slot;
  }

  lemma OthersStayRest(s: State, a: Action, t: nat)
    requires Enabled(s, a) && t in s.threads
    requires !a.Crash? && !a.BackgroundEntry? && !a.BackgroundBytes? && !a.PowerFailure?
    requires !a.TrySlot? && !a.TryRecord? && !a.ReturnSlot? && !a.FreeRecord? && !a.FreeSlot? && a.t != t
    ensures t in Next(s, a).threads && Next(s, a).threads[t] == s.threads[t]
  {
    hide Patch, HasRoom, StoredLength;
  }

  lemma LeakedOwnStep(s: State, a: Action, i: nat)
    requires Enabled(s, a) && !a.Crash? && !a.BackgroundEntry? && !a.BackgroundBytes? && !a.PowerFailure?
    requires Leaked(s, a.t, i) && Slot(s, s.threads[a.t].proc, i) == -1
    requires SlotOnly(s.threads[a.t].pc) ==> s.threads[a.t].index != i
    ensures Leaked(Next(s, a), a.t, i) && Next(s, a).threads[a.t].proc == s.threads[a.t].proc
  {
    hide Patch, HasRoom, StoredLength;
    var th, th' := s.threads[a.t], Next(s, a).threads[a.t];
    assert th'.held == (if a.TryRecord? && !th'.pc.GiveBack? then th.held + {th.index}
                        else if a.FreeRecord? then th.held - {th.index} else th.held);
  }

  /** No step but the re-check of a section that has filled up abandons a lock. */
  lemma OnlyFullRechecksAbandon(s: State, a: Action, t: nat, i: nat)
    requires LockInv(s) && Enabled(s, a) && !a.PowerFailure?
    requires t in s.threads && t in Next(s, a).threads && !Leaked(s, t, i)
    ensures Leaked(Next(s, a), t, i)
            <==> a == CheckAgain(t) && i == s.threads[t].index && !HasRoom(s, s.threads[t])
  {
    hide HasRoom;
    if a.Crash? || a.BackgroundEntry? || a.BackgroundBytes? || a.t != t {
      if a == Crash(s.threads[t].proc) { GoneWithProcess(s, t); }
      OthersStay(s, a, t);
    } else {
      assert ThreadLocks(s, s.threads[t]);
      OwnStepAbandons(s, a, i);
    }
  }

  lemma GoneWithProcess(s: State, t: nat)
    requires t in s.threads
    ensures t !in Next(s, Crash(s.threads[t].proc)).threads
  {
  }

  lemma OwnStepAbandons(s: State, a: Action, i: nat)
    requires Enabled(s, a) && !a.Crash? && !a.BackgroundEntry? && !a.BackgroundBytes? && !a.PowerFailure?
    requires a.t in s.threads && !Leaked(s, a.t, i) && a.t in Next(s, a).threads
    requires Leased(s.threads[a.t].pc) ==> s.threads[a.t].index in s.threads[a.t].held
    ensures Leaked(Next(s, a), a.t, i)
            <==> a.CheckAgain? && i == s.threads[a.t].index && !HasRoom(s, s.threads[a.t])
  {
    hide Slot, HasRoom, Patch, StoredLength;
  }
}
