// Which section a write lease is looked for in, and when the looking ends, as
// functions of the entry lengths and of the entries that others have locked.
module SearchSpec {
  import opened Layout

  datatype Choice = Nothing | Chosen(index: nat, visited: nat)

  predicate RoomAt(log: seq<nat>, i: nat, size: nat) {
    i < |log| && HasSpace(log[i], size)
  }

  /** One walk backward from `index`: the first entry with room, among four. */
  function WalkFrom(log: seq<nat>, size: nat, index: nat, visited: nat): (c: Choice)
    ensures c.Chosen? ==>
              && RoomAt(log, c.index, size) && c.index < index
              && c.visited <= MAX_WALK && c.index + c.visited == index + visited
              && forall i :: c.index < i < index ==> !RoomAt(log, i, size)
    ensures c.Nothing? ==>
              forall i :: 0 <= i < index && index + visited - MAX_WALK <= i ==> !RoomAt(log, i, size)
    decreases index
  {
    if index == 0 || visited >= MAX_WALK then Nothing
    else if RoomAt(log, index - 1, size) then Chosen(index - 1, visited + 1)
    else WalkFrom(log, size, index - 1, visited + 1)
  }

  /** The walk that remembers only how many entries the walk before it visited. */
  function Hop(log: seq<nat>, size: nat, visited: nat): Choice {
    WalkFrom(log, size, if visited <= |log| then |log| - visited else 0, 0)
  }

  /** One of the next `walks` walks finds an entry that nobody has locked, or none
      that has room, so that a new one is appended. */
  predicate Ends(log: seq<nat>, size: nat, locked: set<nat>, visited: nat, walks: nat)
    decreases walks
  {
    walks > 0
    && var c := Hop(log, size, visited);
       c.Nothing? || c.index !in locked || Ends(log, size, locked, c.visited, walks - 1)
  }

  /** The entry that the search ends at: the first that a walk finds and nobody has
      locked, or the one it appends. */
  function EndsAt(log: seq<nat>, size: nat, locked: set<nat>, visited: nat, walks: nat): (i: nat)
    requires Ends(log, size, locked, visited, walks)
    ensures i <= |log| && (i < |log| ==> i !in locked && RoomAt(log, i, size))
    decreases walks
  {
    var c := Hop(log, size, visited);
    if c.Nothing? then |log|
    else if c.index !in locked then c.index
    else EndsAt(log, size, locked, c.visited, walks - 1)
  }

  /** What one walk makes of it. */
  lemma OneHop(log: seq<nat>, size: nat, locked: set<nat>, visited: nat, walks: nat)
    requires Ends(log, size, locked, visited, walks)
    ensures walks > 0
    ensures var c := Hop(log, size, visited); var i := EndsAt(log, size, locked, visited, walks);
            if c.Nothing? then i == |log|
            else if c.index !in locked then i == c.index
            else Ends(log, size, locked, c.visited, walks - 1) && i == EndsAt(log, size, locked, c.visited, walks - 1)
  {
  }

  lemma {:induction false} EndsMore(log: seq<nat>, size: nat, locked: set<nat>, visited: nat, walks: nat, more: nat)
    requires Ends(log, size, locked, visited, walks) && walks <= more
    ensures Ends(log, size, locked, visited, more)
    decreases walks
  {
    var c := Hop(log, size, visited);
    if c.Chosen? && c.index in locked { EndsMore(log, size, locked, c.visited, walks - 1, more - 1); }
  }

  /** Each of these walks is sent back, into another one of them. */
  predicate Stuck(log: seq<nat>, size: nat, locked: set<nat>, visits: set<nat>) {
    forall v :: v in visits ==> SentBack(log, size, locked, v) && Hop(log, size, v).visited in visits
  }

  predicate SentBack(log: seq<nat>, size: nat, locked: set<nat>, visited: nat) {
    Hop(log, size, visited).Chosen? && Hop(log, size, visited).index in locked
  }

  lemma {:induction false} StuckNeverEnds(log: seq<nat>, size: nat, locked: set<nat>, visits: set<nat>, visited: nat,
                                            walks: nat)
    requires Stuck(log, size, locked, visits) && visited in visits
    ensures !Ends(log, size, locked, visited, walks)
    decreases walks
  {
    assert SentBack(log, size, locked, visited);
    if walks > 0 { StuckNeverEnds(log, size, locked, visits, Hop(log, size, visited).visited, walks - 1); }
  }

  function NextVisited(log: seq<nat>, size: nat, visited: nat): nat {
    var c := Hop(log, size, visited);
    if c.Chosen? then c.visited else 0
  }

  lemma SentBackVisits(log: seq<nat>, size: nat, locked: set<nat>, visited: nat)
    requires SentBack(log, size, locked, visited)
    ensures 1 <= NextVisited(log, size, visited) <= MAX_WALK
    ensures Hop(log, size, visited).visited == NextVisited(log, size, visited)
  {
  }

  lemma FiveSentBack(log: seq<nat>, size: nat, locked: set<nat>, visited: nat, walks: nat)
    requires !Ends(log, size, locked, visited, walks) && walks > 0
    ensures SentBack(log, size, locked, visited)
    ensures !Ends(log, size, locked, NextVisited(log, size, visited), walks - 1)
  {
  }

  /** A walk visits one to four entries, so five walks in a row that are sent back
      repeat themselves. */
  lemma RepeatsAfterFive(log: seq<nat>, size: nat, locked: set<nat>, v0: nat) returns (visits: set<nat>)
    requires !Ends(log, size, locked, v0, 5)
    ensures Stuck(log, size, locked, visits)
    ensures SentBack(log, size, locked, v0) && Hop(log, size, v0).visited in visits
  {
    hide Hop, Ends, SentBack, NextVisited;
    FiveSentBack(log, size, locked, v0, 5);
    var v1 := NextVisited(log, size, v0);
    FiveSentBack(log, size, locked, v1, 4);
    var v2 := NextVisited(log, size, v1);
    FiveSentBack(log, size, locked, v2, 3);
    var v3 := NextVisited(log, size, v2);
    FiveSentBack(log, size, locked, v3, 2);
    var v4 := NextVisited(log, size, v3);
    FiveSentBack(log, size, locked, v4, 1);
    SentBackVisits(log, size, locked, v0);
    SentBackVisits(log, size, locked, v1);
    SentBackVisits(log, size, locked, v2);
    SentBackVisits(log, size, locked, v3);
    SentBackVisits(log, size, locked, v4);
    Pigeonhole(v => NextVisited(log, size, v), v1, v2, v3, v4, NextVisited(log, size, v4));
    visits := {v1, v2, v3, v4};
  }

  lemma Pigeonhole(h: nat -> nat, v1: nat, v2: nat, v3: nat, v4: nat, v5: nat)
    requires v2 == h(v1) && v3 == h(v2) && v4 == h(v3) && v5 == h(v4)
    requires 1 <= v1 <= 4 && 1 <= v2 <= 4 && 1 <= v3 <= 4 && 1 <= v4 <= 4 && 1 <= v5 <= 4
    ensures v5 == v1 || v5 == v2 || v5 == v3 || v5 == v4
  {
  }

  /** What has not ended after five walks never ends. */
  lemma FiveWalksDecide(log: seq<nat>, size: nat, locked: set<nat>, visited: nat, walks: nat)
    ensures Ends(log, size, locked, visited, walks) ==> Ends(log, size, locked, visited, 5)
  {
    if !Ends(log, size, locked, visited, 5) && walks > 0 {
      var visits := RepeatsAfterFive(log, size, locked, visited);
      StuckNeverEnds(log, size, locked, visits, Hop(log, size, visited).visited, walks - 1);
    }
  }

  /** With one locked entry two walks are enough. */
  lemma OneLockedEnds(log: seq<nat>, size: nat, locked: set<nat>, j: nat)
    requires forall i :: i in locked ==> i == j
    ensures Ends(log, size, locked, 0, 2)
  {
    var c := Hop(log, size, 0);
    if c.Chosen? && c.index in locked {
      var d := Hop(log, size, c.visited);
      assert d.Chosen? ==> d.index < |log| - c.visited == j;
      assert Ends(log, size, locked, c.visited, 1);
    }
  }
}
