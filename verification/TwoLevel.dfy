// The two lock levels together: the commit protocol of all processes, with the
// in-process level of each process played by its list of lock blocks.
//
// `logdb_log_lock` walks the list, takes the slot and then the record lock;
// `logdb_log_unlock` gives the record lock back and then walks the list for the
// slot. Every step of a walk interleaves with everything else. Each call walks
// under a ticket of its own, because a lock may be abandoned.
module TwoLevel {
  import opened Layout
  import opened CommitProtocol
  import opened CommitRefinement
  import CommitLocks
  import CommitTheorems
  import L = LockList
  import M = LockMap

  datatype World = World(
    commit: State,              // `slots` is what the lists below stand for
    lists: map<nat, L.State>,   // per process
    tickets: map<nat, nat>,     // per thread, its latest walk
    nextTicket: nat)

  datatype Move =
    | Other(a: Action)          // any step but those on an in-process slot
    | CallLock(t: nat)
    | Loads(t: nat)
    | Scans(t: nat)
    | Takes(t: nat)
    | CallUnlock(t: nat)
    | Finds(t: nat)

  function ListOf(w: World, proc: nat): L.State {
    if proc in w.lists then w.lists[proc] else L.Init()
  }

  /** Where the latest walk of thread `t` stands. */
  function WalkOf(w: World, t: nat): L.Thread {
    if t in w.commit.threads && t in w.tickets
       && w.tickets[t] in ListOf(w, w.commit.threads[t].proc).threads
    then ListOf(w, w.commit.threads[t].proc).threads[w.tickets[t]] else L.Idle
  }

  predicate Calling(walk: L.Thread) {
    walk.Load? || walk.Scan? || walk.Take?
  }

  predicate Returning(pc: Pc) {
    pc.GiveBack? || pc.DropSlot?
  }

  predicate OnSlot(a: Action) {
    a.TrySlot? || a.ReturnSlot? || a.FreeSlot?
  }

  predicate CanMove(w: World, m: Move) {
    match m
    case Other(a) => Enabled(w.commit, a) && !OnSlot(a)
    case CallLock(t) => At(w.commit, t, TakeSlot) && !Calling(WalkOf(w, t))
    case Loads(t) => At(w.commit, t, TakeSlot) && WalkOf(w, t).Load?
    case Scans(t) => At(w.commit, t, TakeSlot) && WalkOf(w, t).Scan?
    case Takes(t) => At(w.commit, t, TakeSlot) && WalkOf(w, t).Take?
    case CallUnlock(t) =>
      && t in w.commit.threads && Returning(w.commit.threads[t].pc)
      && WalkOf(w, t).Held? && ListOf(w, w.commit.threads[t].proc).head.Some?
    case Finds(t) => t in w.commit.threads && Returning(w.commit.threads[t].pc) && WalkOf(w, t).Find?
  }

  function Moved(w: World, proc: nat, list: L.State): World {
    w.(lists := w.lists[proc := list])
  }

  /** The step of the list behind a move of thread `t`. */
  function ListAction(w: World, m: Move): L.Action
    requires !m.Other? && !m.CallLock? && m.t in w.tickets
  {
    match m
    case Loads(t) => L.Loads(w.tickets[t])
    case Scans(t) => L.Scans(w.tickets[t])
    case Takes(t) => L.Takes(w.tickets[t])
    case CallUnlock(t) => L.Unlock(w.tickets[t])
    case Finds(t) => L.Finds(w.tickets[t])
  }

  function AfterList(w: World, m: Move): L.State
    requires CanMove(w, m) && !m.Other? && !m.CallLock?
  {
    L.Next(ListOf(w, w.commit.threads[m.t].proc), ListAction(w, m))
  }

  function SetSlot(s: State, t: nat, value: int, pc: Pc): State
    requires t in s.threads
  {
    var th := s.threads[t];
    Put(s.(slots := s.slots[(th.proc, th.index) := value]), t, th.(pc := pc))
  }

  /** The thread goes on as the list says. */
  function CommitAfter(w: World, m: Move): State
    requires CanMove(w, m) && !m.Other? && !m.CallLock?
  {
    var th, walk := w.commit.threads[m.t], AfterList(w, m).threads[w.tickets[m.t]];
    if m.Takes? then
      (if walk.Held? then SetSlot(w.commit, m.t, -1, TakeRecord) else Put(w.commit, m.t, th.(pc := Walk)))
    else if m.Finds? && walk.Idle? then
      SetSlot(w.commit, m.t, Slot(w.commit, th.proc, th.index) + 1, if th.pc.GiveBack? then Walk else Idle)
    else w.commit
  }

  function OtherMove(w: World, a: Action): World
    requires Enabled(w.commit, a)
  {
    var commit := Next(w.commit, a);
    match a
    case Crash(proc) =>
      World(commit, w.lists - {proc}, map t | t in w.tickets && t in commit.threads :: w.tickets[t], w.nextTicket)
    case PowerFailure => World(commit, map[], map[], w.nextTicket)
    case _ => w.(commit := commit)
  }

  function CallMove(w: World, t: nat): World
    requires At(w.commit, t, TakeSlot)
  {
    var th := w.commit.threads[t];
    var list := ListOf(w, th.proc);
    World(w.commit, w.lists[th.proc := L.Put(list, w.nextTicket, L.Load(th.index, L.Head))],
          w.tickets[t := w.nextTicket], w.nextTicket + 1)
  }

  function NextWorld(w: World, m: Move): World
    requires CanMove(w, m)
  {
    match m
    case Other(a) => OtherMove(w, a)
    case CallLock(t) => CallMove(w, t)
    case _ => Moved(w, w.commit.threads[m.t].proc, AfterList(w, m)).(commit := CommitAfter(w, m))
  }

  function InitWorld(): World {
    World(Init(), map[], map[], 0)
  }

  /** No insertion takes over an entry that somebody is committed to. */
  predicate GuardedMove(w: World, m: Move)
    requires CanMove(w, m)
  {
    m.Scans? ==> M.Guarded(ListOf(w, w.commit.threads[m.t].proc), ListAction(w, m))
  }

  // -------------------------------------------------------------- coupling

  predicate Ticketed(pc: Pc) {
    CommitLocks.SlotOnly(pc) || CommitLocks.Leased(pc)
  }

  /** The walk of a thread that has a slot, or is about to have one, is on its entry. */
  predicate WalkFits(th: Thread, walk: L.Thread) {
    && (Ticketed(th.pc) ==>
          (walk.Held? && walk.index == th.index) || (Returning(th.pc) && walk.Find? && walk.index == th.index))
    && (th.pc.TakeSlot? && Calling(walk) ==> walk.Index() == th.index)
    && (!th.pc.TakeSlot? ==> !Calling(walk))
  }

  /** A process's slots are what its list says. */
  ghost predicate ListFits(w: World, proc: nat) {
    && M.Consistent(ListOf(w, proc))
    && (forall k :: k in ListOf(w, proc).threads ==> k < w.nextTicket)
    && forall j: nat :: Slot(w.commit, proc, j) == M.Value(ListOf(w, proc), j)
  }

  predicate TicketsFit(w: World) {
    && (forall t :: t in w.tickets ==> t in w.commit.threads && w.tickets[t] < w.nextTicket)
    && (forall t, u :: t in w.tickets && u in w.tickets && t != u ==> w.tickets[t] != w.tickets[u])
  }

  ghost predicate Coupled(w: World) {
    && TicketsFit(w)
    && (forall proc: nat :: ListFits(w, proc))
    && (forall t :: t in w.commit.threads ==> WalkFits(w.commit.threads[t], WalkOf(w, t)))
  }

  // ------------------------------------- steps that are not on a slot

  /** A thread that has its slot keeps its entry; one that walks does not move here. */
  predicate ThreadMove(th: Thread, th': Thread) {
    && th'.proc == th.proc && !th.pc.TakeSlot? && !Returning(th.pc)
    && (Ticketed(th'.pc) ==> Ticketed(th.pc) && th'.index == th.index)
  }

  predicate OneThread(s: State, s': State, t: nat) {
    && s'.slots == s.slots && t in s'.threads && s'.threads == s.threads[t := s'.threads[t]]
    && if t in s.threads then ThreadMove(s.threads[t], s'.threads[t]) else s'.threads[t].pc.Walk?
  }

  lemma SearchMoves(s: State, a: Action)
    requires Enabled(s, a)
    requires a.Begin? || a.FindEnd? || a.LookBack? || a.AppendEntry? || a.FindAppended? || a.TryRecord? || a.CheckAgain?
    ensures OneThread(s, Next(s, a), a.t)
  {
    hide HasRoom;
  }

  lemma WriteMoves(s: State, a: Action)
    requires Enabled(s, a)
    requires a.WriteChunk? || a.SyncDatabase? || a.WriteEntry? || a.SyncLogFile? || a.FreeRecord? || a.Fail?
    ensures OneThread(s, Next(s, a), a.t)
  {
    hide Patch, StoredLength;
  }

  lemma OneMoves(w: World, s': State, t: nat)
    requires Coupled(w) && OneThread(w.commit, s', t)
    ensures Coupled(w.(commit := s'))
  {
    hide M.Consistent, M.Value;
    var w' := w.(commit := s');
    forall proc: nat ensures ListFits(w', proc) {
      assert ListFits(w, proc);
      forall j: nat ensures Slot(s', proc, j) == M.Value(ListOf(w', proc), j) {
        assert Slot(w.commit, proc, j) == M.Value(ListOf(w, proc), j);
      }
    }
    forall u | u in s'.threads ensures WalkFits(s'.threads[u], WalkOf(w', u)) {
      if u in w.commit.threads { assert WalkFits(w.commit.threads[u], WalkOf(w, u)) && WalkOf(w', u) == WalkOf(w, u); }
    }
  }

  lemma QuietMoves(w: World, s': State)
    requires Coupled(w) && s'.slots == w.commit.slots && s'.threads == w.commit.threads
    ensures Coupled(w.(commit := s'))
  {
    hide M.Consistent, M.Value;
    var w' := w.(commit := s');
    forall proc: nat ensures ListFits(w', proc) {
      assert ListFits(w, proc);
      forall j: nat ensures Slot(s', proc, j) == M.Value(ListOf(w', proc), j) {
        assert Slot(w.commit, proc, j) == M.Value(ListOf(w, proc), j);
      }
    }
    forall u | u in s'.threads ensures WalkFits(s'.threads[u], WalkOf(w', u)) { assert WalkOf(w', u) == WalkOf(w, u); }
  }

  lemma FreshListFits(w: World, proc: nat)
    requires proc !in w.lists && forall j: nat :: Slot(w.commit, proc, j) == 0
    ensures ListFits(w, proc)
  {
    M.InitConsistent();
  }

  lemma CrashMoves(w: World, proc: nat)
    requires Coupled(w)
    ensures Coupled(OtherMove(w, Crash(proc)))
  {
    hide M.Consistent, M.Value;
    var w' := OtherMove(w, Crash(proc));
    forall p: nat ensures ListFits(w', p) {
      if p == proc {
        FreshListFits(w', p);
      } else {
        assert ListFits(w, p);
        forall j: nat ensures Slot(w'.commit, p, j) == M.Value(ListOf(w', p), j) {
          assert Slot(w.commit, p, j) == M.Value(ListOf(w, p), j);
        }
      }
    }
    forall u | u in w'.commit.threads ensures WalkFits(w'.commit.threads[u], WalkOf(w', u)) {
      assert WalkFits(w.commit.threads[u], WalkOf(w, u)) && WalkOf(w', u) == WalkOf(w, u);
    }
  }

  lemma PowerMoves(w: World)
    requires Coupled(w)
    ensures Coupled(OtherMove(w, PowerFailure))
  {
    forall p: nat ensures ListFits(OtherMove(w, PowerFailure), p) { FreshListFits(OtherMove(w, PowerFailure), p); }
  }

  lemma OtherMoves(w: World, a: Action)
    requires Coupled(w) && Enabled(w.commit, a) && !OnSlot(a)
    ensures Coupled(OtherMove(w, a))
  {
    hide Coupled;
    if a.Crash? {
      CrashMoves(w, a.proc);
    } else if a.PowerFailure? {
      PowerMoves(w);
    } else if a.BackgroundEntry? || a.BackgroundBytes? {
      QuietMoves(w, Next(w.commit, a));
    } else if a.WriteChunk? || a.SyncDatabase? || a.WriteEntry? || a.SyncLogFile? || a.FreeRecord? || a.Fail? {
      WriteMoves(w.commit, a);
      OneMoves(w, Next(w.commit, a), a.t);
    } else {
      SearchMoves(w.commit, a);
      OneMoves(w, Next(w.commit, a), a.t);
    }
  }

  // ------------------------------------------------------ steps of a walk

  lemma TicketIsNew(w: World, proc: nat)
    requires ListFits(w, proc)
    ensures w.nextTicket !in ListOf(w, proc).threads
  {
  }

  lemma CallFits(w: World, t: nat, p: nat)
    requires Coupled(w) && CanMove(w, CallLock(t))
    ensures ListFits(CallMove(w, t), p)
  {
    hide M.Consistent, M.Value, WalkFits, TicketsFit;
    var proc := w.commit.threads[t].proc;
    assert ListFits(w, p) && ListFits(w, proc);
    M.LocalMap(ListOf(w, proc), L.Lock(w.nextTicket, w.commit.threads[t].index));
  }

  lemma CallMoves(w: World, t: nat)
    requires Coupled(w) && CanMove(w, CallLock(t))
    ensures Coupled(CallMove(w, t))
  {
    hide M.Consistent, M.Value, ListFits, WalkOf;
    var w' := CallMove(w, t);
    forall p: nat ensures ListFits(w', p) { CallFits(w, t, p); }
    assert ListFits(w, w.commit.threads[t].proc);
    TicketIsNew(w, w.commit.threads[t].proc);
    forall u | u in w'.commit.threads ensures WalkFits(w'.commit.threads[u], WalkOf(w', u)) {
      assert WalkFits(w.commit.threads[u], WalkOf(w, u));
      CallWalk(w, t, u);
    }
  }

  lemma CallWalk(w: World, t: nat, u: nat)
    requires CanMove(w, CallLock(t)) && TicketsFit(w) && u in w.commit.threads
    requires w.nextTicket !in ListOf(w, w.commit.threads[t].proc).threads
    ensures WalkOf(CallMove(w, t), u)
            == if u == t then L.Load(w.commit.threads[t].index, L.Head) else WalkOf(w, u)
  {
  }

  /** A list step moves the walk of one ticket only. */
  lemma OneWalk(list: L.State, a: L.Action)
    requires L.Enabled(list, a) && a.t in list.threads
    ensures var list' := L.Next(list, a);
            a.t in list'.threads && list'.threads == list.threads[a.t := list'.threads[a.t]]
  {
  }

  /** Thread `t` moved along its list; its slot and its place in the protocol agree. */
  lemma WalkMoves(w: World, t: nat, list: L.State, s': State)
    requires Coupled(w) && t in w.commit.threads && t in w.tickets
    requires var before := ListOf(w, w.commit.threads[t].proc);
             && w.tickets[t] in before.threads && w.tickets[t] in list.threads
             && list.threads == before.threads[w.tickets[t] := list.threads[w.tickets[t]]]
    requires M.Consistent(list)
    requires t in s'.threads && s'.threads == w.commit.threads[t := s'.threads[t]]
    requires s'.threads[t].proc == w.commit.threads[t].proc
    requires WalkFits(s'.threads[t], list.threads[w.tickets[t]])
    requires forall p: nat, j: nat :: Slot(s', p, j)
               == if p == w.commit.threads[t].proc then M.Value(list, j) else Slot(w.commit, p, j)
    ensures Coupled(Moved(w, w.commit.threads[t].proc, list).(commit := s'))
  {
    hide M.Consistent, M.Value;
    var proc := w.commit.threads[t].proc;
    var w' := Moved(w, proc, list).(commit := s');
    forall p: nat ensures ListFits(w', p) {
      assert ListFits(w, p);
      forall j: nat ensures Slot(s', p, j) == M.Value(ListOf(w', p), j) {
        assert Slot(w.commit, p, j) == M.Value(ListOf(w, p), j);
      }
    }
    forall u | u in s'.threads ensures WalkFits(s'.threads[u], WalkOf(w', u)) {
      if u != t { assert WalkFits(w.commit.threads[u], WalkOf(w, u)) && WalkOf(w', u) == WalkOf(w, u); }
    }
  }

  /** Where the list of a moving thread stands. */
  lemma MoverFacts(w: World, m: Move)
    requires Coupled(w) && CanMove(w, m) && !m.Other? && !m.CallLock?
    ensures m.t in w.commit.threads && m.t in w.tickets
    ensures var th := w.commit.threads[m.t]; var list := ListOf(w, th.proc);
            && M.Consistent(list) && w.tickets[m.t] in list.threads
            && list.threads[w.tickets[m.t]] == WalkOf(w, m.t) && WalkFits(th, WalkOf(w, m.t))
            && L.Enabled(list, ListAction(w, m))
            && (forall j: nat :: Slot(w.commit, th.proc, j) == M.Value(list, j))
  {
    assert ListFits(w, w.commit.threads[m.t].proc);
  }

  lemma SameSlots(w: World, t: nat, list: L.State)
    requires t in w.commit.threads
    requires forall j: nat :: Slot(w.commit, w.commit.threads[t].proc, j) == M.Value(list, j)
    ensures forall p: nat, j: nat :: Slot(w.commit, p, j)
              == if p == w.commit.threads[t].proc then M.Value(list, j) else Slot(w.commit, p, j)
  {
  }

  lemma StepsAlong(w: World, m: Move)
    requires Coupled(w) && CanMove(w, m) && GuardedMove(w, m) && (m.Loads? || m.Scans? || m.CallUnlock?)
    ensures Coupled(NextWorld(w, m)) && NextWorld(w, m).commit == w.commit
  {
    hide Coupled, M.Consistent, M.Value, M.Guarded;
    MoverFacts(w, m);
    var th := w.commit.threads[m.t];
    var list, la := ListOf(w, th.proc), ListAction(w, m);
    assert M.Guarded(list, la) by { if !m.Scans? { NotScanning(list, la); } }
    M.MapRefinement(list, la);
    OneWalk(list, la);
    SameSlots(w, m.t, AfterList(w, m));
    WalkMoves(w, m.t, AfterList(w, m), w.commit);
  }

  lemma NotScanning(list: L.State, la: L.Action)
    requires L.Enabled(list, la) && !la.Scans?
    ensures M.Guarded(list, la)
  {
  }

  lemma SlotIsSet(s: State, t: nat, value: int, pc: Pc, p: nat, j: nat)
    requires t in s.threads
    ensures Slot(SetSlot(s, t, value, pc), p, j)
            == if p == s.threads[t].proc && j == s.threads[t].index then value else Slot(s, p, j)
  {
  }

  lemma StepTakes(w: World, t: nat)
    requires Coupled(w) && CanMove(w, Takes(t))
    ensures Coupled(NextWorld(w, Takes(t))) && NextWorld(w, Takes(t)).commit == Next(w.commit, TrySlot(t))
  {
    hide Coupled, M.Consistent, M.Value, M.Guarded;
    MoverFacts(w, Takes(t));
    var th := w.commit.threads[t];
    var list, la := ListOf(w, th.proc), ListAction(w, Takes(t));
    NotScanning(list, la);
    M.MapRefinement(list, la);
    OneWalk(list, la);
    var list', s' := AfterList(w, Takes(t)), CommitAfter(w, Takes(t));
    forall p: nat, j: nat ensures Slot(s', p, j) == if p == th.proc then M.Value(list', j) else Slot(w.commit, p, j) {
      if list'.threads[w.tickets[t]].Held? { SlotIsSet(w.commit, t, -1, TakeRecord, p, j); }
      assert M.MapStep(list, la, M.Value(list, j), M.Value(list', j), j);
      assert Slot(w.commit, th.proc, j) == M.Value(list, j);
    }
    WalkMoves(w, t, list', s');
  }

  /** The step of the protocol that gives the slot back. */
  function GivesBack(s: State, t: nat): Action {
    if At(s, t, GiveBack) then ReturnSlot(t) else FreeSlot(t)
  }

  lemma StepFinds(w: World, t: nat)
    requires Coupled(w) && CanMove(w, Finds(t))
    ensures Coupled(NextWorld(w, Finds(t)))
    ensures NextWorld(w, Finds(t)).commit == if GoesOn(w, t) then w.commit else GivenBack(w.commit, t)
  {
    hide Coupled, M.Consistent, M.Value, Next, L.Next;
    MoverFacts(w, Finds(t));
    var th := w.commit.threads[t];
    var list, la := ListOf(w, th.proc), ListAction(w, Finds(t));
    NotScanning(list, la);
    M.MapRefinement(list, la);
    OneWalk(list, la);
    FoundOrNot(list, la);
    var list', s' := AfterList(w, Finds(t)), CommitAfter(w, Finds(t));
    forall p: nat, j: nat ensures Slot(s', p, j) == if p == th.proc then M.Value(list', j) else Slot(w.commit, p, j) {
      SlotIsSet(w.commit, t, Slot(w.commit, th.proc, th.index) + 1, if th.pc.GiveBack? then Walk else Idle, p, j);
      assert M.MapStep(list, la, M.Value(list, j), M.Value(list', j), j);
      assert Slot(w.commit, th.proc, j) == M.Value(list, j);
    }
    WalkMoves(w, t, list', s');
  }

  /** The walk of the unlock has not come to the block of the slot yet. */
  predicate GoesOn(w: World, t: nat) {
    t in w.commit.threads && WalkOf(w, t).Find?
    && L.StartOf(ListOf(w, w.commit.threads[t].proc), WalkOf(w, t).id) + L.BLOCK <= WalkOf(w, t).index
  }

  lemma FoundOrNot(list: L.State, a: L.Action)
    requires L.Enabled(list, a) && a.Finds?
    ensures var th, th' := list.threads[a.t], L.Next(list, a).threads[a.t];
            if L.StartOf(list, th.id) + L.BLOCK > th.index then th'.Idle? else th'.Find? && th'.index == th.index
  {
  }

  function GivenBack(s: State, t: nat): State {
    if t in s.threads then
      var th := s.threads[t];
      SetSlot(s, t, Slot(s, th.proc, th.index) + 1, if th.pc.GiveBack? then Walk else Idle)
    else s
  }

  lemma GivenBackIsNext(s: State, t: nat)
    requires t in s.threads && Returning(s.threads[t].pc)
    ensures Enabled(s, GivesBack(s, t)) && Next(s, GivesBack(s, t)) == GivenBack(s, t)
  {
  }

  // -------------------------------------------------------------- all runs

  /** What the move is in the commit protocol: one of its steps, or none. */
  function Projected(w: World, m: Move): seq<Action>
    requires CanMove(w, m)
  {
    match m
    case Other(a) => [a]
    case Takes(t) => [TrySlot(t)]
    case Finds(t) =>
      if GoesOn(w, t) then [] else [GivesBack(w.commit, t)]
    case _ => []
  }

  lemma OneAction(s: State, a: Action)
    requires Enabled(s, a)
    ensures IsRun(s, [a]) && After(s, [a]) == Next(s, a)
  {
    assert [a][1..] == [];
    assert After(Next(s, a), []) == Next(s, a);
  }

  /** Every guarded move of the two levels together is a step of the commit
      protocol on plain slots, or changes nothing there. */
  lemma MoveRefines(w: World, m: Move)
    requires Coupled(w) && CanMove(w, m) && GuardedMove(w, m)
    ensures Coupled(NextWorld(w, m))
    ensures IsRun(w.commit, Projected(w, m)) && After(w.commit, Projected(w, m)) == NextWorld(w, m).commit
  {
    hide Coupled, Next, WalkOf;
    match m
    case Other(a) => OtherMoves(w, a); OneAction(w.commit, a); OtherIsNext(w, a);
    case CallLock(t) => CallMoves(w, t);
    case Takes(t) => StepTakes(w, t); OneAction(w.commit, TrySlot(t));
    case Finds(t) =>
      StepFinds(w, t);
      GivenBackIsNext(w.commit, t);
      if Projected(w, m) != [] { OneAction(w.commit, GivesBack(w.commit, t)); }
    case _ => StepsAlong(w, m);
  }

  lemma OtherIsNext(w: World, a: Action)
    requires Enabled(w.commit, a)
    ensures OtherMove(w, a).commit == Next(w.commit, a)
  {
  }

  predicate GuardedMoves(w: World, moves: seq<Move>)
    decreases |moves|
  {
    moves == [] ||
    (CanMove(w, moves[0]) && GuardedMove(w, moves[0]) && GuardedMoves(NextWorld(w, moves[0]), moves[1..]))
  }

  function Ends(w: World, moves: seq<Move>): World
    requires GuardedMoves(w, moves)
    decreases |moves|
  {
    if moves == [] then w else Ends(NextWorld(w, moves[0]), moves[1..])
  }

  /** Every grant on the way is fresh. */
  predicate FreshMoves(w: World, moves: seq<Move>)
    requires GuardedMoves(w, moves)
    decreases |moves|
  {
    moves == [] || (FreshMove(w, moves[0]) && FreshMoves(NextWorld(w, moves[0]), moves[1..]))
  }

  predicate FreshMove(w: World, m: Move)
    requires CanMove(w, m)
  {
    m.Other? ==> Guarded(w.commit, m.a)
  }

  lemma {:induction false} RunsConcat(s: State, a: seq<Action>, b: seq<Action>)
    requires IsRun(s, a) && IsRun(After(s, a), b)
    ensures IsRun(s, a + b) && After(s, a + b) == After(After(s, a), b)
    ensures CommitTheorems.GuardedRun(s, a) && CommitTheorems.GuardedRun(After(s, a), b)
            ==> CommitTheorems.GuardedRun(s, a + b)
    decreases |a|
  {
    hide Next, Enabled, Guarded;
    if a == [] {
      assert a + b == b;
    } else {
      RunsConcat(Next(s, a[0]), a[1..], b);
      assert (a + b)[1..] == a[1..] + b;
    }
  }

  lemma OneFresh(w: World, m: Move)
    requires CanMove(w, m) && IsRun(w.commit, Projected(w, m))
    ensures FreshMove(w, m) ==> CommitTheorems.GuardedRun(w.commit, Projected(w, m))
  {
    var actions := Projected(w, m);
    if actions != [] {
      assert actions[1..] == [];
      assert CommitTheorems.GuardedRun(Next(w.commit, actions[0]), []);
    }
  }

  lemma {:induction false} MovesRefine(w: World, moves: seq<Move>) returns (actions: seq<Action>)
    requires Coupled(w) && GuardedMoves(w, moves)
    ensures Coupled(Ends(w, moves))
    ensures IsRun(w.commit, actions) && After(w.commit, actions) == Ends(w, moves).commit
    ensures FreshMoves(w, moves) ==> CommitTheorems.GuardedRun(w.commit, actions)
    decreases |moves|
  {
    hide Coupled, NextWorld, CanMove, GuardedMove, FreshMove;
    actions := [];
    if moves != [] {
      MoveRefines(w, moves[0]);
      OneFresh(w, moves[0]);
      var rest := MovesRefine(NextWorld(w, moves[0]), moves[1..]);
      actions := Projected(w, moves[0]) + rest;
      RunsConcat(w.commit, Projected(w, moves[0]), rest);
    }
  }

  lemma InitCoupled()
    ensures Coupled(InitWorld())
  {
    forall p: nat ensures ListFits(InitWorld(), p) { FreshListFits(InitWorld(), p); }
  }

  /** Over every run of both levels in which no insertion takes over an entry that
      somebody is committed to: at most one thread of all processes is between a
      successful write lock on an entry and its unlock; a process has the record
      lock only while the slot in its list of lock blocks is taken; and the slot
      stays taken from there until the walk of the unlock has come to it. */
  lemma TwoLevelExclusion(moves: seq<Move>)
    requires GuardedMoves(InitWorld(), moves)
    ensures var w := Ends(InitWorld(), moves); var s := w.commit;
            && (forall t, u, i :: t in s.threads && u in s.threads && i in s.threads[t].held && i in s.threads[u].held
                  ==> t == u)
            && (forall i :: i in s.records ==> M.Value(ListOf(w, s.records[i]), i) == -1)
            && (forall t :: t in s.threads && Ticketed(s.threads[t].pc) ==>
                  M.Value(ListOf(w, s.threads[t].proc), s.threads[t].index) == -1)
  {
    InitCoupled();
    var actions := MovesRefine(InitWorld(), moves);
    var w := Ends(InitWorld(), moves);
    var s := w.commit;
    CommitLocks.EntryLockExclusion(actions);
    forall i | i in s.records ensures M.Value(ListOf(w, s.records[i]), i) == -1 {
      assert ListFits(w, s.records[i]);
    }
    forall t | t in s.threads && Ticketed(s.threads[t].pc)
      ensures M.Value(ListOf(w, s.threads[t].proc), s.threads[t].index) == -1
    {
      assert ListFits(w, s.threads[t].proc) && WalkFits(s.threads[t], WalkOf(w, t));
      TicketedIsTaken(ListOf(w, s.threads[t].proc), w.tickets[t], s.threads[t].index);
    }
  }

  lemma TicketedIsTaken(list: L.State, k: nat, i: nat)
    requires M.Consistent(list) && k in list.threads && M.Holds(list.threads[k], i)
    ensures M.Value(list, i) == -1
  {
    assert M.ThreadOk(list, list.threads[k]);
  }

  /** With the lists of lock blocks in their place, every interleaving of fresh
      grants keeps both file images equal to the abstract store. */
  lemma TwoLevelRefinesStore(moves: seq<Move>)
    requires GuardedMoves(InitWorld(), moves) && FreshMoves(InitWorld(), moves)
    ensures var s := Ends(InitWorld(), moves).commit;
            && Refines(s)
            && (forall i :: 0 <= i < |s.log| ==> s.durableDb[i][..s.log[i]] == Committed(s, i))
            && (forall i :: 0 <= i < |s.durableLog| ==> s.durableStore[i] <= s.store[i])
  {
    InitCoupled();
    var actions := MovesRefine(InitWorld(), moves);
    CommitTheorems.CommitRefinesStore(actions);
  }
}
