// When every transaction is a sequence of records, so is every committed prefix,
// at every moment of every run.
module CommitRecords {
  import opened CommitProtocol
  import opened CommitRefinement
  import opened CommitTheorems
  import opened Records

  predicate WholeTxns(txns: seq<Txn>) {
    forall k :: 0 <= k < |txns| ==> Whole(txns[k])
  }

  predicate WholeThread(th: Thread) {
    th.pc.Idle? || Whole(th.txn)
  }

  predicate OnlyRecords(s: State) {
    && (forall t :: t in s.threads ==> WholeThread(s.threads[t]))
    && (forall i :: 0 <= i < |s.store| ==> WholeTxns(s.store[i]))
    && (forall i :: 0 <= i < |s.durableStore| ==> WholeTxns(s.durableStore[i]))
  }

  /** The transactions begun are sequences of records. */
  predicate BeginsRecords(actions: seq<Action>) {
    forall k :: 0 <= k < |actions| && actions[k].Begin? ==> Whole(actions[k].txn)
  }

  /** What a step does to threads and stores, as far as records are concerned. */
  predicate KeepsRecords(s: State, s': State) {
    && (forall t :: t in s'.threads ==> WholeThread(s'.threads[t]))
    && s'.store == s.store && (s'.durableStore == s.durableStore || s'.durableStore == s.store)
  }

  lemma QuietRecords(s: State, s': State)
    requires OnlyRecords(s) && KeepsRecords(s, s')
    ensures OnlyRecords(s')
  {
  }

  lemma OnlyRecordsStep(s: State, a: Action)
    requires OnlyRecords(s) && Enabled(s, a) && (a.Begin? ==> Whole(a.txn))
    ensures OnlyRecords(Next(s, a))
  {
    hide Patch, Whole;
    if a.WriteEntry? {
      PublishRecords(s, a.t);
    } else if a.BackgroundEntry? {
      BackgroundRecords(s, a.index);
    } else if a.AppendEntry? {
      assert WholeTxns([]);
    } else if a.PowerFailure? {
    } else {
      if a.BackgroundBytes? || a.Crash? {
        EnvironmentRecords(s, a);
      } else if a.Begin? || a.FindEnd? || a.LookBack? || a.FindAppended? || a.CheckAgain? {
        SearchRecords(s, a);
      } else if a.TrySlot? || a.TryRecord? || a.ReturnSlot? || a.FreeRecord? || a.FreeSlot? {
        LockRecords(s, a);
      } else {
        WriteRecords(s, a);
      }
      QuietRecords(s, Next(s, a));
    }
  }

  lemma EnvironmentRecords(s: State, a: Action)
    requires OnlyRecords(s) && Enabled(s, a) && (a.BackgroundBytes? || a.Crash?)
    ensures KeepsRecords(s, Next(s, a))
  {
    hide Patch, Whole, WholeTxns;
  }

  lemma SearchRecords(s: State, a: Action)
    requires OnlyRecords(s) && Enabled(s, a) && (a.Begin? ==> Whole(a.txn))
    requires a.Begin? || a.FindEnd? || a.LookBack? || a.FindAppended? || a.CheckAgain?
    ensures KeepsRecords(s, Next(s, a))
  {
    hide Whole, WholeTxns, HasRoom;
  }

  lemma LockRecords(s: State, a: Action)
    requires OnlyRecords(s) && Enabled(s, a)
    requires a.TrySlot? || a.TryRecord? || a.ReturnSlot? || a.FreeRecord? || a.FreeSlot?
    ensures KeepsRecords(s, Next(s, a))
  {
    hide Whole, WholeTxns, Slot;
  }

  lemma WriteRecords(s: State, a: Action)
    requires OnlyRecords(s) && Enabled(s, a) && (a.WriteChunk? || a.SyncDatabase? || a.SyncLogFile? || a.Fail?)
    ensures KeepsRecords(s, Next(s, a))
  {
    hide Patch, Whole, WholeTxns;
  }

  lemma PublishRecords(s: State, t: nat)
    requires OnlyRecords(s) && At(s, t, Publish)
    ensures OnlyRecords(Next(s, WriteEntry(t)))
  {
    hide Whole;
    var th := s.threads[t];
    if th.index < |s.log| && th.index < |s.store| { assert WholeTxns(s.store[th.index] + [th.txn]); }
  }

  lemma BackgroundRecords(s: State, index: nat)
    requires OnlyRecords(s) && index < |s.log|
    ensures OnlyRecords(BackgroundEntryStep(s, index))
  {
    hide Whole;
    assert WholeTxns([]);
    if index < |s.store| { assert WholeTxns(s.store[index]); }
  }

  lemma {:induction false} OnlyRecordsRun(s: State, actions: seq<Action>)
    requires OnlyRecords(s) && IsRun(s, actions) && BeginsRecords(actions)
    ensures OnlyRecords(After(s, actions))
    decreases |actions|
  {
    if actions != [] {
      OnlyRecordsStep(s, actions[0]);
      OnlyRecordsRun(Next(s, actions[0]), actions[1..]);
    }
  }

  lemma WholeSections(s: State, i: nat)
    requires Refines(s) && OnlyRecords(s) && i < |s.log|
    ensures Whole(Committed(s, i))
  {
    assert WholeTxns(s.store[i]);
    WholeFlatten(s.store[i]);
  }

  /** What a read lease covers ends on a record boundary, whenever it is taken. */
  lemma LeaseEndsOnRecordBoundary(actions: seq<Action>, i: nat)
    requires GuardedRun(Init(), actions) && BeginsRecords(actions)
    requires i < |After(Init(), actions).log|
    ensures Refines(After(Init(), actions)) && Whole(Committed(After(Init(), actions), i))
  {
    CommitRefinesStore(actions);
    OnlyRecordsRun(Init(), actions);
    WholeSections(After(Init(), actions), i);
  }
}
