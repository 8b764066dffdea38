// A run of the lock list in which two threads hold the write lock of one entry:
// the second block is inserted in front of the first and covers its indices.
module LockTraces {
  import opened Bytes
  import opened LockList
  import opened LockMap

  ghost predicate Run(s: State, actions: seq<Action>, s': State)
    decreases |actions|
  {
    if actions == [] then s == s'
    else Enabled(s, actions[0]) && Run(Next(s, actions[0]), actions[1..], s')
  }

  lemma {:induction false} RunConcat(s: State, a: seq<Action>, m: State, b: seq<Action>, s': State)
    requires Run(s, a, m) && Run(m, b, s')
    ensures Run(s, a + b, s')
    decreases |a|
  {
    if a == [] {
      assert a + b == b;
    } else {
      RunConcat(Next(s, a[0]), a[1..], m, b, s');
      assert (a + b)[1..] == a[1..] + b;
    }
  }

  lemma RunOne(s: State, a: Action)
    requires Enabled(s, a)
    ensures Run(s, [a], Next(s, a))
  {
    assert [a][1..] == [];
    assert Run(Next(s, a), [], Next(s, a));
  }

  lemma Extend(s: State, actions: seq<Action>, m: State, a: Action) returns (s': State)
    requires Run(s, actions, m) && Enabled(m, a)
    ensures s' == Next(m, a) && Run(s, actions + [a], s')
  {
    RunOne(m, a);
    s' := Next(m, a);
    RunConcat(s, actions, m, [a], s');
  }

  const FIRST := [Lock(1, 10), Loads(1), Scans(1), Takes(1)]
  const SECOND := [Lock(2, 5), Loads(2), Scans(2)]
  const THIRD := [Lock(3, 10), Loads(3), Scans(3), Takes(3)]

  /** Thread 1 locks entry 10: a block that starts at 10. */
  lemma FirstHolds() returns (s: State)
    ensures Run(Init(), FIRST, s)
    ensures s.chain == [0] && s.head == Some(0) && s.blocks == map[0 := Block(10, Zero()[0 := -1], None)]
    ensures s.threads == map[1 := Held(10)]
  {
    s := Extend(Init(), [], Init(), Lock(1, 10));
    s := Extend(Init(), [Lock(1, 10)], s, Loads(1));
    s := Extend(Init(), [Lock(1, 10), Loads(1)], s, Scans(1));
    assert s.blocks == map[0 := Block(10, Zero(), None)] && s.threads == map[1 := Take(10, 0)] && s.chain == [0];
    s := Extend(Init(), [Lock(1, 10), Loads(1), Scans(1)], s, Takes(1));
  }

  /** Thread 2 locks entry 5: a block that starts at 5 and covers 10 as well. */
  lemma SecondInserts(s0: State) returns (s: State)
    requires s0.chain == [0] && s0.head == Some(0) && s0.blocks == map[0 := Block(10, Zero()[0 := -1], None)]
    requires s0.threads == map[1 := Held(10)]
    ensures Run(s0, SECOND, s)
    ensures s.head == Some(1) && 1 in s.blocks && s.blocks[1] == Block(5, Zero(), Some(0)) && s.chain == [1, 0]
    ensures s.threads == map[1 := Held(10), 2 := Take(5, 1)]
  {
    assert Run(s0, [], s0);
    s := Extend(s0, [], s0, Lock(2, 5));
    s := Extend(s0, [Lock(2, 5)], s, Loads(2));
    s := Extend(s0, [Lock(2, 5), Loads(2)], s, Scans(2));
  }

  /** Thread 3 locks entry 10 too, through the new block. */
  lemma ThirdHolds(s0: State) returns (s: State)
    requires s0.head == Some(1) && 1 in s0.blocks && s0.blocks[1] == Block(5, Zero(), Some(0)) && s0.chain == [1, 0]
    requires s0.threads == map[1 := Held(10), 2 := Take(5, 1)]
    ensures Run(s0, THIRD, s)
    ensures 1 in s.threads && 3 in s.threads && Holds(s.threads[1], 10) && Holds(s.threads[3], 10)
  {
    assert Run(s0, [], s0);
    s := Extend(s0, [], s0, Lock(3, 10));
    s := Extend(s0, [Lock(3, 10)], s, Loads(3));
    s := Extend(s0, [Lock(3, 10), Loads(3)], s, Scans(3));
    assert s.threads[3] == Take(10, 1) && s.blocks == s0.blocks;
    s := Extend(s0, [Lock(3, 10), Loads(3), Scans(3)], s, Takes(3));
  }

  /** Exclusion fails for the list as written. */
  lemma TwoThreadsHoldOneEntry() returns (s: State)
    ensures Run(Init(), FIRST + SECOND + THIRD, s)
    ensures 1 in s.threads && 3 in s.threads && Holds(s.threads[1], 10) && Holds(s.threads[3], 10)
  {
    var s1 := FirstHolds();
    var s2 := SecondInserts(s1);
    s := ThirdHolds(s2);
    RunConcat(Init(), FIRST, s1, SECOND, s2);
    RunConcat(Init(), FIRST + SECOND, s2, THIRD, s);
  }
}
