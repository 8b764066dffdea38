// Lock and unlock with both levels, from beginning to end: whatever the list of
// lock blocks looks like, a thread that is left alone comes through its walk, and
// the call does what one step of the commit machine does.
module TwoLevelCalls {
  import opened CommitProtocol
  import opened TwoLevel
  import K = LockCalls

  /** What thread `t` does next in a call that is on a slot. */
  function OwnMove(w: World, t: nat): Move {
    match WalkOf(w, t)
    case Load(_, _) => Loads(t)
    case Scan(_, _, _) => Scans(t)
    case Take(_, _) => Takes(t)
    case walk =>
      if At(w.commit, t, TakeSlot) then CallLock(t) else if walk.Held? then CallUnlock(t) else Finds(t)
  }

  predicate Calls(w: World, t: nat) {
    At(w.commit, t, TakeSlot) || At(w.commit, t, GiveBack) || At(w.commit, t, DropSlot)
  }

  /** The world after `steps` moves of thread `t`, or fewer if its call has ended. */
  function Alone(w: World, t: nat, steps: nat): World
    decreases steps
  {
    if steps == 0 || !Calls(w, t) || !CanMove(w, OwnMove(w, t)) then w
    else Alone(NextWorld(w, OwnMove(w, t)), t, steps - 1)
  }

  lemma OneMove(w: World, t: nat, steps: nat)
    requires Calls(w, t) && CanMove(w, OwnMove(w, t)) && steps > 0
    ensures Alone(w, t, steps) == Alone(NextWorld(w, OwnMove(w, t)), t, steps - 1)
  {
  }

  lemma Ended(w: World, t: nat, steps: nat)
    requires !Calls(w, t)
    ensures Alone(w, t, steps) == w
  {
  }

  /** The walk of thread `t` is `walk` in the list `list`. */
  predicate Walks(w: World, t: nat, list: L.State, walk: L.Thread) {
    && t in w.commit.threads && t in w.tickets && list == ListOf(w, w.commit.threads[t].proc)
    && w.tickets[t] in list.threads && list.threads[w.tickets[t]] == walk
  }

  lemma WalkIs(w: World, t: nat)
    requires WalkOf(w, t) != L.Idle
    ensures t in w.commit.threads && t in w.tickets
    ensures Walks(w, t, ListOf(w, w.commit.threads[t].proc), WalkOf(w, t))
  {
  }

  /** The thread goes on as the list says. */
  lemma ListMove(w: World, t: nat, list: L.State, walk: L.Thread)
    requires Walks(w, t, list, walk) && K.Walking(walk)
    requires if walk.Find? then Returning(w.commit.threads[t].pc) else At(w.commit, t, TakeSlot)
    ensures Calls(w, t) && CanMove(w, OwnMove(w, t))
    ensures var list', w' := L.Next(list, K.OwnStep(walk, w.tickets[t])), NextWorld(w, OwnMove(w, t));
            && w.tickets[t] in list'.threads && t in w'.commit.threads && w'.tickets == w.tickets
            && w'.commit.threads[t].proc == w.commit.threads[t].proc
            && Walks(w', t, list', list'.threads[w.tickets[t]])
            && w'.commit == (var th, now := w.commit.threads[t], list'.threads[w.tickets[t]];
                             if walk.Take? then
                               if now.Held? then SetSlot(w.commit, t, -1, TakeRecord)
                               else Put(w.commit, t, th.(pc := Walk))
                             else if walk.Find? && now.Idle? then
                               SetSlot(w.commit, t, Slot(w.commit, th.proc, th.index) + 1,
                                       if th.pc.GiveBack? then Walk else Idle)
                             else w.commit)
  {
    assert WalkOf(w, t) == walk;
  }

  /** What the list makes of the walk is what becomes of the call. */
  lemma {:induction false} LockFollows(w: World, t: nat, list: L.State, walk: L.Thread, steps: nat)
    requires Walks(w, t, list, walk) && K.Locking(walk) && At(w.commit, t, TakeSlot)
    requires w.tickets[t] in K.Alone(list, w.tickets[t], steps).threads
    requires !K.Walking(K.Alone(list, w.tickets[t], steps).threads[w.tickets[t]])
    ensures var now := K.Alone(list, w.tickets[t], steps).threads[w.tickets[t]];
            Alone(w, t, steps).commit
            == if now.Held? then SetSlot(w.commit, t, -1, TakeRecord)
               else Put(w.commit, t, w.commit.threads[t].(pc := Walk))
    decreases steps
  {
    hide Alone, NextWorld, CanMove, K.Alone, L.Next;
    if steps == 0 { StartsThere(list, w.tickets[t]); }
    K.OneStep(list, w.tickets[t], steps);
    ListMove(w, t, list, walk);
    OneMove(w, t, steps);
    var list' := L.Next(list, K.OwnStep(walk, w.tickets[t]));
    var w', walk' := NextWorld(w, OwnMove(w, t)), list'.threads[w.tickets[t]];
    StaysLocking(list, w.tickets[t], walk);
    if walk.Take? {
      K.Ended(list', w.tickets[t], steps - 1);
      Ended(w', t, steps - 1);
    } else {
      LockFollows(w', t, list', walk', steps - 1);
    }
  }

  lemma StartsThere(list: L.State, k: nat)
    ensures K.Alone(list, k, 0) == list
  {
  }

  lemma StaysLocking(list: L.State, k: nat, walk: L.Thread)
    requires k in list.threads && list.threads[k] == walk && K.Locking(walk)
    ensures var list' := L.Next(list, K.OwnStep(walk, k));
            && k in list'.threads
            && (if walk.Take? then list'.threads[k].Held? || list'.threads[k].Idle? else K.Locking(list'.threads[k]))
  {
  }

  /** A lock call on a slot, from wherever its walk stands: it is one step on the
      map of slots that the commit machine has, and it ends within this many moves. */
  lemma LockCallEnds(w: World, t: nat)
    requires Coupled(w) && At(w.commit, t, TakeSlot)
    ensures Alone(w, t, 2 * |ListOf(w, w.commit.threads[t].proc).chain| + 4).commit == Next(w.commit, TrySlot(t))
  {
    hide Alone, Coupled;
    var th := w.commit.threads[t];
    var n := 2 * |ListOf(w, th.proc).chain| + 4;
    if Calling(WalkOf(w, t)) {
      CallingEnds(w, t, n);
    } else {
      CallStarts(w, t);
      OneMove(w, t, n);
      CallingEnds(NextWorld(w, CallLock(t)), t, n - 1);
    }
  }

  lemma CallStarts(w: World, t: nat)
    requires Coupled(w) && At(w.commit, t, TakeSlot) && !Calling(WalkOf(w, t))
    ensures OwnMove(w, t) == CallLock(t) && CanMove(w, CallLock(t)) && Calls(w, t)
    ensures var w' := NextWorld(w, CallLock(t)); var th := w.commit.threads[t];
            && Coupled(w') && w'.commit == w.commit && WalkOf(w', t) == L.Load(th.index, L.Head)
            && ListOf(w', th.proc).chain == ListOf(w, th.proc).chain
  {
    hide Coupled, M.Value, M.Covering;
    MoveRefines(w, CallLock(t));
  }

  lemma CallingEnds(w: World, t: nat, steps: nat)
    requires Coupled(w) && At(w.commit, t, TakeSlot) && Calling(WalkOf(w, t))
    requires 2 * |ListOf(w, w.commit.threads[t].proc).chain| + 3 <= steps
    ensures Alone(w, t, steps).commit == Next(w.commit, TrySlot(t))
  {
    hide Alone, K.Alone, K.Enough, M.Value;
    var th, walk := w.commit.threads[t], WalkOf(w, t);
    var list := ListOf(w, th.proc);
    WalkIs(w, t);
    assert WalkFits(th, walk) && ListFits(w, th.proc);
    var k := w.tickets[t];
    K.EnoughIsSome(list, walk);
    K.LockEnds(list, k, walk, steps);
    K.TargetCovers(list, k);
    EndsAs(list, K.Alone(list, k, steps), k, walk);
    LockFollows(w, t, list, walk, steps);
    assert Slot(w.commit, th.proc, th.index) == M.Value(list, th.index);
  }

  lemma EndsAs(list: L.State, list': L.State, k: nat, walk: L.Thread)
    requires K.Locking(walk) && K.LockEnd(list, list', k, walk)
    requires K.Target(list, walk) == M.Covering(list, list.chain, walk.index)
    ensures k in list'.threads && !K.Walking(list'.threads[k])
    ensures list'.threads[k].Held? <==> M.Value(list, walk.index) == 0
  {
    hide M.Covering, L.Inserted, L.SetSlot;
  }

  /** An unlock call is one step as well. */
  lemma UnlockCallEnds(w: World, t: nat)
    requires Coupled(w) && t in w.commit.threads && Returning(w.commit.threads[t].pc)
    ensures Alone(w, t, |ListOf(w, w.commit.threads[t].proc).chain| + 1).commit
            == FreeSlotStep(w.commit, t, if w.commit.threads[t].pc.GiveBack? then Walk else Idle)
  {
    hide Alone, Coupled;
    var th := w.commit.threads[t];
    var n := |ListOf(w, th.proc).chain|;
    if WalkOf(w, t).Find? {
      FindingEnds(w, t, n + 1);
    } else {
      UnlockStarts(w, t);
      OneMove(w, t, n + 1);
      FindingEnds(NextWorld(w, CallUnlock(t)), t, n);
    }
  }

  lemma UnlockStarts(w: World, t: nat)
    requires Coupled(w) && t in w.commit.threads && Returning(w.commit.threads[t].pc) && !WalkOf(w, t).Find?
    ensures OwnMove(w, t) == CallUnlock(t) && CanMove(w, CallUnlock(t)) && Calls(w, t)
    ensures var w' := NextWorld(w, CallUnlock(t)); var th := w.commit.threads[t];
            && Coupled(w') && w'.commit == w.commit && WalkOf(w', t).Find?
            && ListOf(w', th.proc).chain == ListOf(w, th.proc).chain
  {
    hide M.Value, M.Covering;
    HasHead(w, t);
    MoveRefines(w, CallUnlock(t));
  }

  lemma HasHead(w: World, t: nat)
    requires Coupled(w) && t in w.commit.threads && Returning(w.commit.threads[t].pc) && !WalkOf(w, t).Find?
    ensures WalkOf(w, t).Held? && ListOf(w, w.commit.threads[t].proc).head.Some?
    ensures t in w.tickets && CanMove(w, CallUnlock(t))
  {
    var th := w.commit.threads[t];
    var list := ListOf(w, th.proc);
    assert WalkFits(th, WalkOf(w, t)) && ListFits(w, th.proc);
    WalkIs(w, t);
    assert M.ThreadOk(list, list.threads[w.tickets[t]]);
    M.HeadIsFirst(list, th.index);
  }

  lemma FindingEnds(w: World, t: nat, steps: nat)
    requires Coupled(w) && t in w.commit.threads && Returning(w.commit.threads[t].pc) && WalkOf(w, t).Find?
    requires |ListOf(w, w.commit.threads[t].proc).chain| <= steps
    ensures Alone(w, t, steps).commit
            == FreeSlotStep(w.commit, t, if w.commit.threads[t].pc.GiveBack? then Walk else Idle)
  {
    hide Alone, K.Alone, M.Covering;
    var th, walk := w.commit.threads[t], WalkOf(w, t);
    var list := ListOf(w, th.proc);
    WalkIs(w, t);
    assert WalkFits(th, walk) && ListFits(w, th.proc);
    var k := w.tickets[t];
    assert M.ThreadOk(list, walk);
    K.FindEnds(list, k, walk, steps);
    FindFollows(w, t, list, walk, steps);
  }

  lemma {:induction false} FindFollows(w: World, t: nat, list: L.State, walk: L.Thread, steps: nat)
    requires Walks(w, t, list, walk) && walk.Find? && Returning(w.commit.threads[t].pc)
    requires w.tickets[t] in K.Alone(list, w.tickets[t], steps).threads
    requires K.Alone(list, w.tickets[t], steps).threads[w.tickets[t]].Idle?
    ensures Alone(w, t, steps).commit
            == FreeSlotStep(w.commit, t, if w.commit.threads[t].pc.GiveBack? then Walk else Idle)
    decreases steps
  {
    hide Alone, NextWorld, CanMove, K.Alone, L.Next;
    if steps == 0 { StartsThere(list, w.tickets[t]); }
    K.OneStep(list, w.tickets[t], steps);
    ListMove(w, t, list, walk);
    OneMove(w, t, steps);
    var list' := L.Next(list, L.Finds(w.tickets[t]));
    var w', walk' := NextWorld(w, OwnMove(w, t)), list'.threads[w.tickets[t]];
    StaysFinding(list, w.tickets[t], walk);
    if walk'.Idle? {
      K.Ended(list', w.tickets[t], steps - 1);
      Ended(w', t, steps - 1);
    } else {
      FindFollows(w', t, list', walk', steps - 1);
    }
  }

  lemma StaysFinding(list: L.State, k: nat, walk: L.Thread)
    requires k in list.threads && list.threads[k] == walk && walk.Find?
    ensures var list' := L.Next(list, L.Finds(k));
            k in list'.threads && (list'.threads[k].Find? || list'.threads[k].Idle?)
  {
  }
}
