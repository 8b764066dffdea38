// Two-level exclusion of the commit protocol, in every reachable state of every
// interleaving.
module CommitLocks {
  import opened Layout
  import opened CommitProtocol

  /** The thread has the in-process slot of its index but not the `fcntl` lock. */
  predicate SlotOnly(pc: Pc) {
    pc.TakeRecord? || pc.GiveBack? || pc.DropSlot?
  }

  /** The thread has taken the in-process slot of entry `i` and not given it back. */
  predicate Owns(th: Thread, i: nat) {
    i in th.held || (SlotOnly(th.pc) && i == th.index)
  }

  /** Between a successful write lock and its release. */
  predicate Leased(pc: Pc) {
    pc.Recheck? || pc.Write? || pc.SyncDb? || pc.Publish? || pc.SyncLog? || pc.DropRecord?
  }

  ghost predicate HasOwner(s: State, proc: nat, i: nat) {
    exists t :: t in s.threads && s.threads[t].proc == proc && Owns(s.threads[t], i)
  }

  ghost predicate HasHolder(s: State, proc: nat, i: nat) {
    exists t :: t in s.threads && s.threads[t].proc == proc && i in s.threads[t].held
  }

  ghost predicate ThreadLocks(s: State, th: Thread) {
    && (forall i :: Owns(th, i) ==> Slot(s, th.proc, i) == -1)
    && (forall i :: i in th.held ==> i in s.records && s.records[i] == th.proc)
    && (SlotOnly(th.pc) ==> th.index !in th.held)
    && (Leased(th.pc) ==> th.index in th.held)
  }

  ghost predicate SlotsExclusive(s: State) {
    forall t, u, i :: t in s.threads && u in s.threads && t != u
                      && s.threads[t].proc == s.threads[u].proc && Owns(s.threads[t], i)
                      ==> !Owns(s.threads[u], i)
  }

  ghost predicate SlotOwned(s: State, p: nat, i: nat) {
    Slot(s, p, i) == 0 || (Slot(s, p, i) == -1 && HasOwner(s, p, i))
  }

  ghost predicate SlotsOwned(s: State) {
    forall p: nat, i: nat :: SlotOwned(s, p, i)
  }

  ghost predicate RecordsHeld(s: State) {
    forall i :: i in s.records ==> HasHolder(s, s.records[i], i)
  }

  ghost predicate LockInv(s: State) {
    && (forall t :: t in s.threads ==> ThreadLocks(s, s.threads[t]))
    && SlotsExclusive(s)
    && SlotsOwned(s)
    && RecordsHeld(s)
  }

  // ------------------------------------------------------------ preservation

  /** Thread `t` moves to `th'` without touching a lock. */
  predicate SameLocks(s: State, t: nat, th': Thread) {
    && (Leased(th'.pc) ==> th'.index in th'.held)
    && (if t in s.threads then
          var th := s.threads[t];
          && th'.proc == th.proc && th'.held == th.held
          && (SlotOnly(th'.pc) <==> SlotOnly(th.pc))
          && (SlotOnly(th.pc) ==> th'.index == th.index)
        else
          th'.held == {} && !SlotOnly(th'.pc))
  }

  /** A witness for an owner survives a change to thread `t` that keeps `t`'s claim. */
  lemma OwnerKept(s: State, s': State, t: nat, p: nat, i: nat)
    requires t in s'.threads && s'.threads == s.threads[t := s'.threads[t]]
    requires t in s.threads ==> s'.threads[t].proc == s.threads[t].proc
    requires HasOwner(s, p, i)
    requires t in s.threads && s.threads[t].proc == p && Owns(s.threads[t], i) ==> Owns(s'.threads[t], i)
    ensures HasOwner(s', p, i)
  {
    var u :| u in s.threads && s.threads[u].proc == p && Owns(s.threads[u], i);
    assert u in s'.threads;
  }

  lemma HolderKept(s: State, s': State, t: nat, p: nat, i: nat)
    requires t in s'.threads && s'.threads == s.threads[t := s'.threads[t]]
    requires t in s.threads ==> s'.threads[t].proc == s.threads[t].proc
    requires HasHolder(s, p, i)
    requires t in s.threads && s.threads[t].proc == p && i in s.threads[t].held ==> i in s'.threads[t].held
    ensures HasHolder(s', p, i)
  {
    var u :| u in s.threads && s.threads[u].proc == p && i in s.threads[u].held;
    assert u in s'.threads;
  }

  lemma QuietStep(s: State, s1: State, t: nat, th': Thread)
    requires LockInv(s) && SameLocks(s, t, th')
    requires s1.slots == s.slots && s1.records == s.records && s1.threads == s.threads
    ensures LockInv(Put(s1, t, th'))
  {
    var s' := Put(s1, t, th');
    hide SlotsExclusive;
    assert SlotsExclusive(s') by { QuietExclusive(s, s1, t, th'); }
    forall p: nat, i: nat ensures SlotOwned(s', p, i) {
      assert SlotOwned(s, p, i) && Slot(s, p, i) == Slot(s', p, i);
      if HasOwner(s, p, i) { OwnerKept(s, s', t, p, i); }
    }
    forall i | i in s'.records ensures HasHolder(s', s'.records[i], i) {
      HolderKept(s, s', t, s'.records[i], i);
    }
    QuietThreads(s, s1, t, th');
  }

  lemma QuietExclusive(s: State, s1: State, t: nat, th': Thread)
    requires SlotsExclusive(s) && SameLocks(s, t, th') && s1.threads == s.threads
    ensures SlotsExclusive(Put(s1, t, th'))
  {
  }

  lemma QuietThreads(s: State, s1: State, t: nat, th': Thread)
    requires LockInv(s) && SameLocks(s, t, th')
    requires s1.slots == s.slots && s1.records == s.records && s1.threads == s.threads
    ensures forall u :: u in Put(s1, t, th').threads ==> ThreadLocks(Put(s1, t, th'), Put(s1, t, th').threads[u])
  {
    hide SlotsExclusive, SlotsOwned, RecordsHeld;
    var s' := Put(s1, t, th');
    forall u | u in s'.threads ensures ThreadLocks(s', s'.threads[u]) {
      assert u in s.threads ==> ThreadLocks(s, s.threads[u]);
      forall i | Owns(s'.threads[u], i) ensures Slot(s', s'.threads[u].proc, i) == -1 {
        assert u in s.threads && Owns(s.threads[u], i);
      }
    }
  }

  /** Only thread `t`'s claim on its own index changes. */
  ghost predicate ChangeAt(s: State, s': State, t: nat) {
    && t in s.threads && t in s'.threads && s'.threads == s.threads[t := s'.threads[t]]
    && var th, th' := s.threads[t], s'.threads[t];
    && th'.proc == th.proc && th'.index == th.index
    && (forall p: nat, i: nat :: (p, i) != (th.proc, th.index) ==> Slot(s', p, i) == Slot(s, p, i))
    && s'.records - {th.index} == s.records - {th.index}
    && th'.held - {th.index} == th.held - {th.index}
    && (SlotOnly(th'.pc) ==> th.index !in th'.held)
    && (Leased(th'.pc) ==> th.index in th'.held)
    && Slot(s', th.proc, th.index) == (if Owns(th', th.index) then -1 else 0)
    && (th.index in th'.held <==> th.index in s'.records && s'.records[th.index] == th.proc)
    && (th.index in s'.records && s'.records[th.index] != th.proc ==>
          th.index in s.records && s'.records[th.index] == s.records[th.index])
    && (th.index in s.records && s.records[th.index] != th.proc ==>
          th.index in s'.records && s'.records[th.index] == s.records[th.index])
  }

  predicate OthersDisown(s: State, t: nat)
    requires t in s.threads
  {
    forall u :: u in s.threads && u != t && s.threads[u].proc == s.threads[t].proc
                ==> !Owns(s.threads[u], s.threads[t].index)
  }

  lemma ChangeThreads(s: State, s': State, t: nat)
    requires LockInv(s) && ChangeAt(s, s', t) && OthersDisown(s, t)
    ensures forall u :: u in s'.threads ==> ThreadLocks(s', s'.threads[u])
  {
    var index := s.threads[t].index;
    forall u | u in s'.threads ensures ThreadLocks(s', s'.threads[u]) {
      var th, th' := s.threads[u], s'.threads[u];
      assert ThreadLocks(s, th);
      forall i | Owns(th', i) ensures Slot(s', th'.proc, i) == -1 {
        if i != index { assert Owns(th, i) by { assert i in th'.held - {index} ==> i in th.held - {index}; } }
      }
      forall i | i in th'.held ensures i in s'.records && s'.records[i] == th'.proc {
        if i != index {
          assert i in th'.held - {index};
          assert i in s.records - {index};
          assert i in s'.records - {index};
        } else if u != t {
          assert Owns(th, i);
        }
      }
    }
  }

  lemma ChangeOwners(s: State, s': State, t: nat)
    requires LockInv(s) && ChangeAt(s, s', t) && OthersDisown(s, t)
    ensures SlotsExclusive(s') && SlotsOwned(s')
  {
    hide RecordsHeld, ThreadLocks;
    var th, th' := s.threads[t], s'.threads[t];
    forall i | i != th.index ensures Owns(th', i) <==> Owns(th, i) {
      assert i in th'.held - {th.index} <==> i in th.held - {th.index};
    }
    forall p: nat, i: nat ensures SlotOwned(s', p, i) {
      assert SlotOwned(s, p, i);
      if (p, i) != (th.proc, th.index) && HasOwner(s, p, i) { OwnerKept(s, s', t, p, i); }
    }
  }

  lemma ChangeHolders(s: State, s': State, t: nat)
    requires RecordsHeld(s) && ChangeAt(s, s', t)
    ensures RecordsHeld(s')
  {
    var th, th' := s.threads[t], s'.threads[t];
    forall i | i in s'.records ensures HasHolder(s', s'.records[i], i) {
      if i == th.index && s'.records[i] == th.proc {
        assert i in th'.held;
      } else {
        if i != th.index {
          assert i in s'.records - {th.index} && i in s.records - {th.index};
          assert i in th'.held - {th.index} <==> i in th.held - {th.index};
        }
        HolderKept(s, s', t, s'.records[i], i);
      }
    }
  }

  lemma ChangeStep(s: State, s': State, t: nat)
    requires LockInv(s) && ChangeAt(s, s', t) && OthersDisown(s, t)
    ensures LockInv(s')
  {
    hide ChangeAt, OthersDisown, SlotsExclusive, SlotsOwned, RecordsHeld, ThreadLocks;
    ChangeThreads(s, s', t);
    ChangeOwners(s, s', t);
    ChangeHolders(s, s', t);
  }

  lemma TakeSlotLocks(s: State, t: nat)
    requires LockInv(s) && At(s, t, TakeSlot)
    ensures LockInv(TakeSlotStep(s, t))
  {
    var s', th := TakeSlotStep(s, t), s.threads[t];
    assert ThreadLocks(s, th);
    if Slot(s, th.proc, th.index) != 0 {
      QuietStep(s, s, t, th.(pc := Walk));
    } else {
      forall u | u in s.threads && s.threads[u].proc == th.proc ensures !Owns(s.threads[u], th.index) {
        assert ThreadLocks(s, s.threads[u]);
      }
      assert !Owns(th, th.index);
      if th.index in s.records && s.records[th.index] == th.proc {
        HolderOwns(s, th.index);
      }
      ChangeStep(s, s', t);
    }
  }

  lemma HolderOwns(s: State, i: nat)
    requires LockInv(s) && i in s.records
    ensures HasOwner(s, s.records[i], i) && Slot(s, s.records[i], i) == -1
  {
    assert HasHolder(s, s.records[i], i);
    var t :| t in s.threads && s.threads[t].proc == s.records[i] && i in s.threads[t].held;
    assert Owns(s.threads[t], i) && ThreadLocks(s, s.threads[t]);
  }

  lemma TakeRecordLocks(s: State, t: nat)
    requires LockInv(s) && At(s, t, TakeRecord)
    ensures LockInv(TakeRecordStep(s, t))
  {
    var s', th := TakeRecordStep(s, t), s.threads[t];
    assert ThreadLocks(s, th) && Owns(th, th.index);
    if th.index in s.records && s.records[th.index] != th.proc {
      QuietStep(s, s, t, th.(pc := GiveBack));
    } else {
      ChangeStep(s, s', t);
    }
  }

  lemma FreeRecordLocks(s: State, t: nat)
    requires LockInv(s) && At(s, t, DropRecord)
    ensures LockInv(FreeRecordStep(s, t))
  {
    assert ThreadLocks(s, s.threads[t]) && Owns(s.threads[t], s.threads[t].index);
    ChangeStep(s, FreeRecordStep(s, t), t);
  }

  lemma FreeSlotLocks(s: State, t: nat, pc: Pc)
    requires LockInv(s) && t in s.threads && (s.threads[t].pc.GiveBack? || s.threads[t].pc.DropSlot?)
    requires pc.Walk? || pc.Idle?
    ensures LockInv(FreeSlotStep(s, t, pc))
  {
    var th := s.threads[t];
    assert ThreadLocks(s, th) && Owns(th, th.index);
    ChangeStep(s, FreeSlotStep(s, t, pc), t);
  }

  lemma CrashLocks(s: State, proc: nat)
    requires LockInv(s)
    ensures LockInv(CrashStep(s, proc))
  {
    var s' := CrashStep(s, proc);
    forall p: nat, i: nat ensures SlotOwned(s', p, i) {
      if p != proc && Slot(s, p, i) != 0 {
        assert SlotOwned(s, p, i);
        var t :| t in s.threads && s.threads[t].proc == p && Owns(s.threads[t], i);
        assert t in s'.threads;
      }
    }
    forall i | i in s'.records ensures HasHolder(s', s'.records[i], i) {
      var t :| t in s.threads && s.threads[t].proc == s.records[i] && i in s.threads[t].held;
      assert t in s'.threads;
    }
  }

  lemma LocksOf(s: State, t: nat)
    requires LockInv(s) && t in s.threads
    ensures ThreadLocks(s, s.threads[t])
  {
  }

  /** Steps of the search for a section take and release nothing. */
  lemma SearchLocks(s: State, a: Action)
    requires LockInv(s) && Enabled(s, a)
    requires a.Begin? || a.FindEnd? || a.LookBack? || a.AppendEntry? || a.FindAppended?
    ensures LockInv(Next(s, a))
  {
    hide LockInv, HasRoom;
    match a
    case Begin(t, proc, txn) => QuietStep(s, s, t, BeginThread(s, t, proc, txn));
    case FindEnd(t) =>
      QuietStep(s, SetPosition(s, s.threads[t].proc, |s.log|), t, FindEndThread(s, s.threads[t]));
    case LookBack(t) => QuietStep(s, s, t, LookThread(s, s.threads[t]));
    case AppendEntry(t) => QuietStep(s, Extended(s, s.threads[t].proc), t, s.threads[t].(pc := Locate));
    case FindAppended(t) => QuietStep(s, s, t, LocateThread(s, s.threads[t]));
  }

  /** Neither do the steps that use the lease. */
  lemma LeaseLocks(s: State, a: Action)
    requires LockInv(s) && Enabled(s, a)
    requires a.CheckAgain? || a.WriteChunk? || a.Fail?
    ensures LockInv(Next(s, a))
  {
    hide LockInv, Owns, HasRoom, Patch;
    LocksOf(s, a.t);
    match a
    case CheckAgain(t) => QuietStep(s, s, t, RecheckThread(s, s.threads[t]));
    case WriteChunk(t, n) => QuietStep(s, Written(s, s.threads[t], n), t, WriteThread(s.threads[t], n));
    case Fail(t) => QuietStep(s, s, t, FailThread(s.threads[t]));
  }

  lemma PublishLocks(s: State, a: Action)
    requires LockInv(s) && Enabled(s, a)
    requires a.SyncDatabase? || a.WriteEntry? || a.SyncLogFile?
    ensures LockInv(Next(s, a))
  {
    hide LockInv, Owns, StoredLength;
    LocksOf(s, a.t);
    match a
    case SyncDatabase(t) => QuietStep(s, s.(durableDb := s.db), t, s.threads[t].(pc := Publish));
    case WriteEntry(t) => QuietStep(s, Published(s, s.threads[t]), t, s.threads[t].(pc := SyncLog));
    case SyncLogFile(t, ok) => QuietStep(s, LogSynced(s, ok), t, s.threads[t].(pc := DropRecord));
  }

  /** Every step of the code keeps the lock invariant. */
  lemma LockInvStep(s: State, a: Action)
    requires LockInv(s) && Enabled(s, a)
    ensures LockInv(Next(s, a))
  {
    hide LockInv, TakeSlotStep, TakeRecordStep, FreeRecordStep, FreeSlotStep;
    match a
    case TrySlot(t) => TakeSlotLocks(s, t);
    case TryRecord(t) => TakeRecordLocks(s, t);
    case ReturnSlot(t) => FreeSlotLocks(s, t, Walk);
    case FreeRecord(t) => FreeRecordLocks(s, t);
    case FreeSlot(t) => FreeSlotLocks(s, t, Idle);
    case Crash(proc) => CrashLocks(s, proc);
    case PowerFailure => PowerFailureLocks(s);
    case BackgroundEntry(index) => BackgroundLocks(s, BackgroundEntryStep(s, index));
    case BackgroundBytes(index, lo, hi) => BackgroundLocks(s, BackgroundBytesStep(s, index, lo, hi));
    case Begin(t, proc, txn) => SearchLocks(s, a);
    case FindEnd(t) => SearchLocks(s, a);
    case LookBack(t) => SearchLocks(s, a);
    case AppendEntry(t) => SearchLocks(s, a);
    case FindAppended(t) => SearchLocks(s, a);
    case SyncDatabase(t) => PublishLocks(s, a);
    case WriteEntry(t) => PublishLocks(s, a);
    case SyncLogFile(t, ok) => PublishLocks(s, a);
    case _ => LeaseLocks(s, a);
  }

  lemma PowerFailureLocks(s: State)
    ensures LockInv(PowerFailureStep(s))
  {
  }

  lemma BackgroundLocks(s: State, s': State)
    requires LockInv(s)
    requires s'.slots == s.slots && s'.records == s.records && s'.threads == s.threads
    ensures LockInv(s')
  {
    forall p: nat, i: nat ensures SlotOwned(s', p, i) {
      assert SlotOwned(s, p, i) && Slot(s', p, i) == Slot(s, p, i);
      assert HasOwner(s, p, i) ==> HasOwner(s', p, i);
    }
    forall i | i in s'.records ensures HasHolder(s', s'.records[i], i) {
      assert HasHolder(s, s.records[i], i);
    }
  }

  lemma {:induction false} LockInvRun(s: State, actions: seq<Action>)
    requires LockInv(s) && IsRun(s, actions)
    ensures LockInv(After(s, actions))
    decreases |actions|
  {
    if actions != [] {
      LockInvStep(s, actions[0]);
      LockInvRun(Next(s, actions[0]), actions[1..]);
    }
  }

  /** In every run with one slot per entry in each process, at most one thread over
      all processes is between a successful write lock on an entry and its unlock; a
      process has the `fcntl` lock only while one of its threads owns the slot. For
      the slots of the code see `TwoLevel.TwoLevelExclusion`. */
  lemma EntryLockExclusion(actions: seq<Action>)
    requires IsRun(Init(), actions)
    ensures var s := After(Init(), actions);
            && (forall t, u, i :: t in s.threads && u in s.threads && i in s.threads[t].held && i in s.threads[u].held
                  ==> t == u)
            && (forall i :: i in s.records ==>
                  HasOwner(s, s.records[i], i) && Slot(s, s.records[i], i) == -1)
            && (forall t :: t in s.threads && Leased(s.threads[t].pc) ==>
                  s.threads[t].index in s.records && s.records[s.threads[t].index] == s.threads[t].proc)
  {
    LockInvRun(Init(), actions);
    var s := After(Init(), actions);
    forall t, u, i | t in s.threads && u in s.threads && i in s.threads[t].held && i in s.threads[u].held
      ensures t == u
    {
      assert Owns(s.threads[t], i) && Owns(s.threads[u], i);
      assert ThreadLocks(s, s.threads[t]) && ThreadLocks(s, s.threads[u]);
    }
    forall i | i in s.records ensures HasOwner(s, s.records[i], i) && Slot(s, s.records[i], i) == -1 {
      HolderOwns(s, i);
    }
  }
}
