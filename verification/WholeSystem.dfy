// Everything together: processes open and close the database and crash, their
// threads lease, write and commit, with both lock levels as the code has them.
module WholeSystem {
  import opened Bytes
  import C = CommitProtocol
  import D = CommitRefinement
  import T = TwoLevel
  import H = CommitRecovery
  import R = Recovery
  import CommitLocks
  import CommitTheorems

  /** The files, and the protocol with its lists of lock blocks. */
  datatype System = System(files: R.State, world: T.World)

  datatype Event = File(op: R.Action) | Moves(m: T.Move)

  /** The same without the lists. */
  function View(s: System): H.World {
    H.World(s.files, s.world.commit)
  }

  predicate CanHappen(s: System, e: Event) {
    match e
    case File(op) => H.CanHappen(View(s), H.File(op))
    case Moves(m) =>
      && s.files.phase.Open? && s.files.log.Some? && T.CanMove(s.world, m) && T.GuardedMove(s.world, m)
      && (m.Other? ==> H.CanHappen(View(s), H.Commit(m.a)))
  }

  /** The locks of a database that was just opened. */
  function Unlocked(commit: C.State): T.World {
    T.World(commit, map[], map[], 0)
  }

  function Next(s: System, e: Event): System
    requires CanHappen(s, e)
  {
    match e
    case File(op) =>
      var next := H.NextWorld(View(s), H.File(op));
      System(next.files, if next.files.phase.Open? && !s.files.phase.Open? then Unlocked(next.commit) else s.world)
    case Moves(m) =>
      System(if m.Other? then H.FilesAfter(s.files, s.world.commit, m.a) else s.files, T.NextWorld(s.world, m))
  }

  ghost predicate Sound(s: System) {
    H.Sound(View(s)) && (s.files.phase.Open? ==> T.Coupled(s.world))
  }

  /** The event without the lists: one event, or none. */
  function Projected(s: System, e: Event): seq<H.Event>
    requires CanHappen(s, e)
  {
    match e
    case File(op) => [H.File(op)]
    case Moves(m) =>
      var actions := T.Projected(s.world, m);
      seq(|actions|, i requires 0 <= i < |actions| => H.Commit(actions[i]))
  }

  lemma OneEvent(w: H.World, e: H.Event)
    requires H.CanHappen(w, e)
    ensures H.IsHistory(w, [e]) && H.Outcome(w, [e]) == H.NextWorld(w, e)
  {
    hide H.NextWorld;
    assert [e][1..] == [];
    assert H.Outcome(H.NextWorld(w, e), []) == H.NextWorld(w, e);
  }

  lemma UnlockedCoupled(commit: C.State)
    requires commit.slots == map[] && commit.threads == map[]
    ensures T.Coupled(Unlocked(commit))
  {
    forall p: nat ensures T.ListFits(Unlocked(commit), p) { T.FreshListFits(Unlocked(commit), p); }
  }

  /** What a move is on the files: that of the step that it is, or nothing. */
  lemma MoveIsEvent(s: System, m: T.Move)
    requires Sound(s) && CanHappen(s, Moves(m))
    ensures T.Coupled(Next(s, Moves(m)).world)
    ensures H.IsHistory(View(s), Projected(s, Moves(m)))
    ensures H.Outcome(View(s), Projected(s, Moves(m))) == View(Next(s, Moves(m)))
  {
    hide T.Coupled, T.CanMove, T.GuardedMove, T.NextWorld, H.Sound;
    T.MoveRefines(s.world, m);
    var actions := T.Projected(s.world, m);
    AtMostOne(s.world, m);
    if actions != [] {
      var a := actions[0];
      FirstOf(s.world.commit, actions);
      if !m.Other? { SlotStepIsQuiet(s.files, s.world.commit, a); }
      OneEvent(View(s), H.Commit(a));
      assert Projected(s, Moves(m)) == [H.Commit(a)];
    } else {
      assert Projected(s, Moves(m)) == [];
      assert H.Outcome(View(s), []) == View(s);
    }
  }

  lemma AtMostOne(w: T.World, m: T.Move)
    requires T.CanMove(w, m)
    ensures |T.Projected(w, m)| <= 1
    ensures m.Other? ==> T.Projected(w, m) == [m.a]
    ensures !m.Other? && T.Projected(w, m) != [] ==> T.OnSlot(T.Projected(w, m)[0])
  {
  }

  lemma FirstOf(s: C.State, actions: seq<C.Action>)
    requires |actions| == 1 && C.IsRun(s, actions)
    ensures C.Enabled(s, actions[0]) && C.After(s, actions) == C.Next(s, actions[0])
  {
    hide C.Next, C.Enabled;
    assert actions[1..] == [];
    assert C.After(C.Next(s, actions[0]), []) == C.Next(s, actions[0]);
  }

  lemma SlotStepIsQuiet(f: R.State, c: C.State, a: C.Action)
    requires f.phase.Open? && f.log.Some? && C.Enabled(c, a) && T.OnSlot(a)
    ensures H.CanHappen(H.World(f, c), H.Commit(a)) && H.FilesAfter(f, c, a) == f
  {
  }

  lemma EventRefines(s: System, e: Event)
    requires Sound(s) && CanHappen(s, e)
    ensures Sound(Next(s, e))
    ensures H.IsHistory(View(s), Projected(s, e)) && H.Outcome(View(s), Projected(s, e)) == View(Next(s, e))
  {
    match e
    case File(op) => FileEvent(s, op);
    case Moves(m) =>
      MoveIsEvent(s, m);
      var _ := H.HistoryRefines(View(s), Projected(s, e), 0);
  }

  lemma FileEvent(s: System, op: R.Action)
    requires Sound(s) && CanHappen(s, File(op))
    ensures Sound(Next(s, File(op)))
    ensures H.IsHistory(View(s), Projected(s, File(op)))
    ensures H.Outcome(View(s), Projected(s, File(op))) == View(Next(s, File(op)))
  {
    hide T.Coupled, H.Sound;
    OneEvent(View(s), H.File(op));
    H.EventRefines(View(s), H.File(op));
    var next := H.NextWorld(View(s), H.File(op));
    if next.files.phase.Open? && !s.files.phase.Open? { UnlockedCoupled(next.commit); }
  }

  predicate IsHistory(s: System, events: seq<Event>)
    decreases |events|
  {
    events == [] || (CanHappen(s, events[0]) && IsHistory(Next(s, events[0]), events[1..]))
  }

  function Outcome(s: System, events: seq<Event>): System
    requires IsHistory(s, events)
    decreases |events|
  {
    if events == [] then s else Outcome(Next(s, events[0]), events[1..])
  }

  /** What one event commits to section `i`. */
  function Commits(s: System, e: Event, i: nat): seq<byte>
    requires CanHappen(s, e)
  {
    match e
    case Moves(Other(WriteEntry(t))) =>
      if s.world.commit.threads[t].index == i then s.world.commit.threads[t].txn else []
    case _ => []
  }

  /** The transactions whose entry was written to section `i`, in order. */
  function CommittedIn(s: System, events: seq<Event>, i: nat): seq<byte>
    requires IsHistory(s, events)
    decreases |events|
  {
    if events == [] then []
    else Commits(s, events[0], i) + CommittedIn(Next(s, events[0]), events[1..], i)
  }

  lemma {:induction false} HistoriesConcat(w: H.World, a: seq<H.Event>, b: seq<H.Event>, i: nat)
    requires H.IsHistory(w, a) && H.IsHistory(H.Outcome(w, a), b)
    ensures H.IsHistory(w, a + b) && H.Outcome(w, a + b) == H.Outcome(H.Outcome(w, a), b)
    ensures H.CommittedIn(w, a + b, i) == H.CommittedIn(w, a, i) + H.CommittedIn(H.Outcome(w, a), b, i)
    decreases |a|
  {
    hide H.NextWorld, H.CanHappen;
    if a == [] {
      assert a + b == b;
    } else {
      HistoriesConcat(H.NextWorld(w, a[0]), a[1..], b, i);
      assert (a + b)[1..] == a[1..] + b;
    }
  }

  lemma OneCommits(w: H.World, e: H.Event, i: nat)
    requires H.CanHappen(w, e)
    ensures H.IsHistory(w, [e])
    ensures H.CommittedIn(w, [e], i)
            == match e
               case Commit(WriteEntry(t)) => if w.commit.threads[t].index == i then w.commit.threads[t].txn else []
               case _ => []
  {
    OneEvent(w, e);
    assert [e][1..] == [];
    assert H.CommittedIn(H.NextWorld(w, e), [], i) == [];
  }

  lemma EventCommits(s: System, e: Event, i: nat)
    requires Sound(s) && CanHappen(s, e) && H.IsHistory(View(s), Projected(s, e))
    ensures H.CommittedIn(View(s), Projected(s, e), i) == Commits(s, e, i)
  {
    hide H.Sound, T.Coupled, H.NextWorld;
    match e
    case File(op) => OneCommits(View(s), H.File(op), i);
    case Moves(m) =>
      AtMostOne(s.world, m);
      var actions := T.Projected(s.world, m);
      if actions != [] {
        assert Projected(s, e) == [H.Commit(actions[0])];
        OneCommits(View(s), H.Commit(actions[0]), i);
      }
  }

  lemma {:induction false} HistoryRefines(s: System, events: seq<Event>, i: nat) returns (history: seq<H.Event>)
    requires Sound(s) && IsHistory(s, events)
    ensures Sound(Outcome(s, events))
    ensures H.IsHistory(View(s), history) && H.Outcome(View(s), history) == View(Outcome(s, events))
    ensures H.CommittedIn(View(s), history, i) == CommittedIn(s, events, i)
    decreases |events|
  {
    hide Sound, Next, CanHappen;
    history := [];
    if events != [] {
      EventRefines(s, events[0]);
      EventCommits(s, events[0], i);
      var rest := HistoryRefines(Next(s, events[0]), events[1..], i);
      history := Projected(s, events[0]) + rest;
      HistoriesConcat(View(s), Projected(s, events[0]), rest, i);
    }
  }

  function NewSystem(): System {
    System(R.Init(), T.InitWorld())
  }

  /** The whole life of a database, with the walks over the lists of lock blocks in
      every interleaving. As long as grants are fresh and no insertion takes over an
      entry that somebody is committed to, at every moment no two threads have one
      entry locked, the open files hold the abstract store, and the next open would
      find, whole and in order, every transaction whose entry was written. */
  lemma EverythingRecovers(events: seq<Event>, i: nat)
    requires IsHistory(NewSystem(), events)
    ensures var s := Outcome(NewSystem(), events);
            && R.Recover(s.files.db, s.files.log).Some?
            && R.ContentAt(R.Recover(s.files.db, s.files.log).value, i) == CommittedIn(NewSystem(), events, i)
            && (s.files.phase.Open? ==> D.Refines(s.world.commit) && Exclusive(s.world.commit))
  {
    var history := HistoryRefines(NewSystem(), events, i);
    H.RecoveryFindsCommits(history, i);
    var s := Outcome(NewSystem(), events);
    if s.files.phase.Open? {
      CommitTheorems.DataRefines(s.world.commit);
      OneHolder(s.world.commit);
    }
  }

  /** No two threads of any processes have one entry locked. */
  predicate Exclusive(c: C.State) {
    forall t, u, i :: t in c.threads && u in c.threads && i in c.threads[t].held && i in c.threads[u].held ==> t == u
  }

  lemma OneHolder(c: C.State)
    requires CommitLocks.LockInv(c)
    ensures Exclusive(c)
  {
    forall t, u, i | t in c.threads && u in c.threads && i in c.threads[t].held && i in c.threads[u].held
      ensures t == u
    {
      assert CommitLocks.Owns(c.threads[t], i) && CommitLocks.Owns(c.threads[u], i);
      assert CommitLocks.ThreadLocks(c, c.threads[t]) && CommitLocks.ThreadLocks(c, c.threads[u]);
    }
  }
}
