// The in-process lock list of logdb_log.c: blocks of 128 slots in a linked list
// that threads extend with compare-and-swap. One process; write locks, the only
// kind that callers take.
module LockList {
  import opened Bytes

  type Id = nat

  const BLOCK := 128

  datatype Block = Block(start: nat, locks: seq<int>, next: Option<Id>)

  /** The place a `next` (or the list head) is stored. */
  datatype Dest = Head | After(id: Id)

  datatype Thread =
    | Idle
    | Load(index: nat, dest: Dest)                      // about to load `*dest`
    | Scan(index: nat, dest: Dest, seen: Option<Id>)    // label `tryagain1`
    | Take(index: nat, id: Id)                          // about to take the slot
    | Held(index: nat)
    | Find(index: nat, id: Id)                          // unlocking: walking the list
  {
    /** The entry that the thread is working on. */
    function Index(): nat {
      if Idle? then 0 else index
    }
  }

  datatype State = State(
    blocks: map<Id, Block>,
    head: Option<Id>,
    chain: seq<Id>,              // the blocks in list order
    threads: map<nat, Thread>)

  datatype Action =
    | Lock(t: nat, index: nat)
    | Loads(t: nat)
    | Scans(t: nat)
    | Takes(t: nat)
    | Unlock(t: nat)
    | Finds(t: nat)

  function Init(): State {
    State(map[], None, [], map[])
  }

  function Zero(): seq<int> {
    seq(BLOCK, _ => 0)
  }

  function Stored(s: State, dest: Dest): Option<Id> {
    if dest.Head? then s.head else if dest.id in s.blocks then s.blocks[dest.id].next else None
  }

  function StartOf(s: State, id: Id): nat {
    if id in s.blocks then s.blocks[id].start else 0
  }

  function FreshId(s: State): Id {
    |s.chain|
  }

  predicate Enabled(s: State, a: Action) {
    match a
    case Lock(t, index) => t !in s.threads || s.threads[t].Idle?
    case Loads(t) => t in s.threads && s.threads[t].Load?
    case Scans(t) => t in s.threads && s.threads[t].Scan?
    case Takes(t) => t in s.threads && s.threads[t].Take?
    case Unlock(t) => t in s.threads && s.threads[t].Held? && s.head.Some?
    case Finds(t) => t in s.threads && s.threads[t].Find?
  }

  function Put(s: State, t: nat, th: Thread): State {
    s.(threads := s.threads[t := th])
  }

  /** Position of the block that `dest` leads to. */
  function Position(chain: seq<Id>, dest: Dest): (k: nat)
    ensures k <= |chain|
  {
    if dest.Head? || chain == [] then 0
    else if chain[0] == dest.id then 1
    else 1 + Position(chain[1..], dest)
  }

  /** The new block, for `index`, stored in `*dest` in front of what was there. */
  function Inserted(s: State, index: nat, dest: Dest): State {
    var added := FreshId(s);
    var k := Position(s.chain, dest);
    var blocks := s.blocks[added := Block(index, Zero(), Stored(s, dest))];
    s.(blocks := if dest.After? && dest.id in s.blocks
                 then blocks[dest.id := s.blocks[dest.id].(next := Some(added))] else blocks,
       head := if dest.Head? then Some(added) else s.head,
       chain := s.chain[..k] + [added] + s.chain[k..])
  }

  predicate Inserts(s: State, th: Thread)
    requires th.Scan?
  {
    (th.seen.None? || StartOf(s, th.seen.value) > th.index) && Stored(s, th.dest) == th.seen
  }

  function ScanThread(s: State, th: Thread): Thread
    requires th.Scan?
  {
    if th.seen.None? || StartOf(s, th.seen.value) > th.index then
      if Stored(s, th.dest) == th.seen then Take(th.index, FreshId(s))
      else Scan(th.index, th.dest, Stored(s, th.dest))  // the failed exchange reloads
    else if th.index - StartOf(s, th.seen.value) >= BLOCK then Load(th.index, After(th.seen.value))
    else Take(th.index, th.seen.value)
  }

  function SlotAt(s: State, id: Id, index: nat): int {
    if id in s.blocks && s.blocks[id].start <= index < s.blocks[id].start + |s.blocks[id].locks|
    then s.blocks[id].locks[index - s.blocks[id].start] else 0
  }

  function SetSlot(s: State, id: Id, index: nat, value: int): State {
    if id in s.blocks && s.blocks[id].start <= index < s.blocks[id].start + |s.blocks[id].locks| then
      var b := s.blocks[id];
      s.(blocks := s.blocks[id := b.(locks := b.locks[index - b.start := value])])
    else s
  }

  function Next(s: State, a: Action): State
    requires Enabled(s, a)
  {
    match a
    case Lock(t, index) => Put(s, t, Load(index, Head))
    case Loads(t) => Put(s, t, Scan(s.threads[t].index, s.threads[t].dest, Stored(s, s.threads[t].dest)))
    case Scans(t) =>
      var th := s.threads[t];
      Put(if Inserts(s, th) then Inserted(s, th.index, th.dest) else s, t, ScanThread(s, th))
    case Takes(t) =>
      var th := s.threads[t];
      if SlotAt(s, th.id, th.index) == 0 then Put(SetSlot(s, th.id, th.index, -1), t, Held(th.index))
      else Put(s, t, Idle)
    case Unlock(t) => Put(s, t, Find(s.threads[t].index, s.head.value))
    case Finds(t) =>
      var th := s.threads[t];
      if StartOf(s, th.id) + BLOCK - 1 < th.index then
        (if Stored(s, After(th.id)).Some? then Put(s, t, Find(th.index, Stored(s, After(th.id)).value)) else s)
      else Put(SetSlot(s, th.id, th.index, SlotAt(s, th.id, th.index) + 1), t, Idle)
  }

  // ------------------------------------------------------ the list invariant

  predicate Links(s: State) {
    && s.head == (if s.chain == [] then None else Some(s.chain[0]))
    && (forall id :: id in s.chain ==> id in s.blocks)
    && (forall k :: 0 <= k < |s.chain| ==> LinkAt(s, k))
    && (forall id :: id in s.blocks ==> id < |s.chain| && |s.blocks[id].locks| == BLOCK)
  }

  predicate LinkAt(s: State, k: nat)
    requires k < |s.chain|
  {
    && s.chain[k] in s.blocks
    && s.blocks[s.chain[k]].next == if k + 1 < |s.chain| then Some(s.chain[k + 1]) else None
  }

  predicate Before(s: State, k: nat, l: nat)
    requires k < |s.chain| && l < |s.chain|
  {
    StartOf(s, s.chain[k]) < StartOf(s, s.chain[l])
  }

  predicate Ascending(s: State) {
    forall k, l :: 0 <= k < l < |s.chain| ==> Before(s, k, l)
  }

  /** Where a thread stands: everything up to `dest` ends before its index. */
  predicate Placed(s: State, th: Thread) {
    match th
    case Idle => true
    case Load(index, dest) => Passed(s, index, dest)
    case Scan(index, dest, seen) =>
      Passed(s, index, dest)
      && (seen.Some? ==> seen.value in s.chain && (dest.After? ==> StartOf(s, dest.id) < StartOf(s, seen.value)))
    case Take(index, id) => id in s.chain && StartOf(s, id) <= index < StartOf(s, id) + BLOCK
    case Held(index) => s.chain != []
    case Find(index, id) => id in s.chain
  }

  predicate Passed(s: State, index: nat, dest: Dest) {
    dest.After? ==> dest.id in s.chain && StartOf(s, dest.id) + BLOCK <= index
  }

  predicate Inv(s: State) {
    && Links(s) && Ascending(s)
    && (forall t :: t in s.threads ==> Placed(s, s.threads[t]))
  }

  lemma {:induction false} PositionFound(chain: seq<Id>, dest: Dest)
    requires dest.After? && dest.id in chain
    ensures 1 <= Position(chain, dest) <= |chain| && chain[Position(chain, dest) - 1] == dest.id
  {
    if chain[0] != dest.id {
      assert dest.id in chain[1..];
      PositionFound(chain[1..], dest);
    }
  }

  /** What the new block goes in front of. */
  lemma StoredAtPosition(s: State, dest: Dest)
    requires Links(s) && (dest.After? ==> dest.id in s.chain)
    ensures var k := Position(s.chain, dest);
            && Stored(s, dest) == (if k < |s.chain| then Some(s.chain[k]) else None)
            && (dest.After? ==> k > 0 && s.chain[k - 1] == dest.id) && (dest.Head? ==> k == 0)
  {
    if dest.After? {
      PositionFound(s.chain, dest);
      assert LinkAt(s, Position(s.chain, dest) - 1);
    }
  }

  /** A block may go in between: it starts above the block before and below the one after. */
  predicate Fits(s: State, index: nat, dest: Dest) {
    Passed(s, index, dest) && (Stored(s, dest).Some? ==> StartOf(s, Stored(s, dest).value) > index)
  }

  /** The new list, block by block. */
  lemma InsertedAt(s: State, index: nat, dest: Dest, i: nat)
    requires Links(s) && Ascending(s) && (dest.After? ==> dest.id in s.chain) && i <= |s.chain|
    ensures i < |s.chain| ==> s.chain[i] in s.blocks
    ensures i > 0 ==> s.chain[i - 1] in s.blocks
    ensures var s', k, id := Inserted(s, index, dest), Position(s.chain, dest), FreshId(s);
            && |s'.chain| == |s.chain| + 1
            && s'.chain[i] == (if i < k then s.chain[i] else if i == k then id else s.chain[i - 1])
            && s'.chain[i] in s'.blocks
            && (i == k ==> s'.blocks[id] == Block(index, Zero(), Stored(s, dest)))
            && (i < k - 1 ==> s'.blocks[s'.chain[i]] == s.blocks[s.chain[i]])
            && (i == k - 1 ==> s'.blocks[s'.chain[i]] == s.blocks[s.chain[i]].(next := Some(id)))
            && (i > k ==> s'.blocks[s'.chain[i]] == s.blocks[s.chain[i - 1]])
  {
    StoredAtPosition(s, dest);
    var k := Position(s.chain, dest);
    if i != k {
      var j := if i < k then i else i - 1;
      assert s.chain[j] in s.chain && LinkAt(s, j);
      if dest.After? {
        assert LinkAt(s, k - 1);
        if j < k - 1 { assert Before(s, j, k - 1); }
        if k - 1 < j { assert Before(s, k - 1, j); }
      }
    }
  }

  lemma InsertLinks(s: State, index: nat, dest: Dest)
    requires Links(s) && Ascending(s) && Fits(s, index, dest)
    ensures Links(Inserted(s, index, dest))
  {
    StoredAtPosition(s, dest);
    var s', k := Inserted(s, index, dest), Position(s.chain, dest);
    InsertedAt(s, index, dest, 0);
    forall i | 0 <= i < |s'.chain| ensures LinkAt(s', i) {
      InsertedAt(s, index, dest, i);
      if i + 1 < |s'.chain| { InsertedAt(s, index, dest, i + 1); }
      if i < k { assert LinkAt(s, i); }
      if i > k { assert LinkAt(s, i - 1); }
    }
  }

  lemma InsertAscending(s: State, index: nat, dest: Dest)
    requires Links(s) && Ascending(s) && Fits(s, index, dest)
    ensures Ascending(Inserted(s, index, dest))
  {
    StoredAtPosition(s, dest);
    var s', k := Inserted(s, index, dest), Position(s.chain, dest);
    forall i, j | 0 <= i < j < |s'.chain| ensures Before(s', i, j) {
      InsertedAt(s, index, dest, i);
      InsertedAt(s, index, dest, j);
      if i == k {
        if j > k + 1 { assert Before(s, k, j - 1); }
        assert StartOf(s', s'.chain[j]) == StartOf(s, s.chain[j - 1]);
      } else if j == k {
        if i < k - 1 { assert Before(s, i, k - 1); }
        assert StartOf(s', s'.chain[i]) == StartOf(s, s.chain[i]);
      } else {
        assert Before(s, if i < k then i else i - 1, if j < k then j else j - 1);
      }
    }
  }

  /** No block is lost and none moves. */
  predicate Keeps(s: State, s': State) {
    forall id :: id in s.chain ==> id in s'.chain && StartOf(s', id) == StartOf(s, id)
  }

  lemma InsertKeeps(s: State, index: nat, dest: Dest)
    requires Links(s) && Ascending(s) && (dest.After? ==> dest.id in s.chain)
    ensures Keeps(s, Inserted(s, index, dest))
    ensures FreshId(s) in Inserted(s, index, dest).chain && StartOf(Inserted(s, index, dest), FreshId(s)) == index
  {
    var s', k := Inserted(s, index, dest), Position(s.chain, dest);
    StoredAtPosition(s, dest);
    assert s'.chain[k] == FreshId(s);
    InsertedAt(s, index, dest, k);
    forall id | id in s.chain ensures id in s'.chain && StartOf(s', id) == StartOf(s, id) {
      var i :| 0 <= i < |s.chain| && s.chain[i] == id;
      InsertedAt(s, index, dest, if i < k then i else i + 1);
      assert s'.chain[if i < k then i else i + 1] == id;
    }
  }

  lemma PlacedKept(s: State, s': State, th: Thread)
    requires Placed(s, th) && Keeps(s, s')
    ensures Placed(s', th)
  {
    if th.Held? { assert s.chain[0] in s.chain; }
  }

  lemma PutList(s: State, t: nat, th: Thread)
    requires Links(s) && Ascending(s)
    ensures Links(Put(s, t, th)) && Ascending(Put(s, t, th)) && Keeps(s, Put(s, t, th))
  {
    var s' := Put(s, t, th);
    forall k | 0 <= k < |s'.chain| ensures LinkAt(s', k) { assert LinkAt(s, k); }
    forall k, l | 0 <= k < l < |s'.chain| ensures Before(s', k, l) { assert Before(s, k, l); }
  }

  lemma PutInv(s: State, s1: State, t: nat, th: Thread)
    requires Inv(s) && Links(s1) && Ascending(s1) && Keeps(s, s1) && s1.threads == s.threads && Placed(s1, th)
    ensures Inv(Put(s1, t, th))
  {
    var s' := Put(s1, t, th);
    PutList(s1, t, th);
    forall u | u in s'.threads ensures Placed(s', s'.threads[u]) {
      if u != t { PlacedKept(s, s1, s.threads[u]); }
      PlacedKept(s1, s', s'.threads[u]);
    }
  }

  lemma ScanInv(s: State, t: nat)
    requires Inv(s) && Enabled(s, Scans(t))
    ensures Inv(Next(s, Scans(t)))
  {
    var th := s.threads[t];
    StoredAtPosition(s, th.dest);
    if Inserts(s, th) {
      assert Fits(s, th.index, th.dest);
      InsertLinks(s, th.index, th.dest);
      InsertAscending(s, th.index, th.dest);
      InsertKeeps(s, th.index, th.dest);
      PutInv(s, Inserted(s, th.index, th.dest), t, ScanThread(s, th));
    } else {
      LoadedIsLater(s, th.dest);
      PutInv(s, s, t, ScanThread(s, th));
    }
  }

  /** What is stored behind a block is in the list and starts above it. */
  lemma LoadedIsLater(s: State, dest: Dest)
    requires Links(s) && Ascending(s) && (dest.After? ==> dest.id in s.chain)
    ensures Stored(s, dest).Some? ==>
              && Stored(s, dest).value in s.chain
              && (dest.After? ==> StartOf(s, dest.id) < StartOf(s, Stored(s, dest).value))
  {
    StoredAtPosition(s, dest);
    var k := Position(s.chain, dest);
    if dest.After? && k < |s.chain| { assert Before(s, k - 1, k); }
  }

  lemma SlotLinks(s: State, id: Id, index: nat, value: int)
    requires Links(s) && Ascending(s)
    ensures Links(SetSlot(s, id, index, value)) && Ascending(SetSlot(s, id, index, value))
    ensures Keeps(s, SetSlot(s, id, index, value))
  {
    var s' := SetSlot(s, id, index, value);
    forall k | 0 <= k < |s'.chain| ensures LinkAt(s', k) { assert LinkAt(s, k); }
    forall k, l | 0 <= k < l < |s'.chain| ensures Before(s', k, l) { assert Before(s, k, l); }
  }

  lemma TakeInv(s: State, t: nat)
    requires Inv(s) && Enabled(s, Takes(t))
    ensures Inv(Next(s, Takes(t))) && Keeps(s, Next(s, Takes(t)))
  {
    var th := s.threads[t];
    SlotLinks(s, th.id, th.index, -1);
    PutInv(s, SetSlot(s, th.id, th.index, -1), t, Held(th.index));
    PutInv(s, s, t, Idle);
  }

  lemma FindInv(s: State, t: nat)
    requires Inv(s) && Enabled(s, Finds(t))
    ensures Inv(Next(s, Finds(t))) && Keeps(s, Next(s, Finds(t)))
  {
    var th := s.threads[t];
    LoadedIsLater(s, After(th.id));
    SlotLinks(s, th.id, th.index, SlotAt(s, th.id, th.index) + 1);
    PutInv(s, SetSlot(s, th.id, th.index, SlotAt(s, th.id, th.index) + 1), t, Idle);
    if Stored(s, After(th.id)).Some? { PutInv(s, s, t, Find(th.index, Stored(s, After(th.id)).value)); }
  }

  /** Under every interleaving the list stays linked and strictly ascending,
      and no concurrent insertion loses a block. */
  lemma ListStep(s: State, a: Action)
    requires Inv(s) && Enabled(s, a)
    ensures Inv(Next(s, a)) && Keeps(s, Next(s, a))
  {
    match a
    case Lock(t, index) => PutInv(s, s, t, Load(index, Head));
    case Loads(t) =>
      LoadedIsLater(s, s.threads[t].dest);
      PutInv(s, s, t, Scan(s.threads[t].index, s.threads[t].dest, Stored(s, s.threads[t].dest)));
    case Scans(t) =>
      ScanInv(s, t);
      InsertKeeps(s, s.threads[t].index, s.threads[t].dest);
    case Takes(t) => TakeInv(s, t);
    case Unlock(t) => PutInv(s, s, t, Find(s.threads[t].index, s.head.value));
    case Finds(t) => FindInv(s, t);
  }

  predicate IsRun(s: State, actions: seq<Action>)
    decreases |actions|
  {
    actions == [] || (Enabled(s, actions[0]) && IsRun(Next(s, actions[0]), actions[1..]))
  }

  function ResultOf(s: State, actions: seq<Action>): State
    requires IsRun(s, actions)
    decreases |actions|
  {
    if actions == [] then s else ResultOf(Next(s, actions[0]), actions[1..])
  }

  lemma {:induction false} InvRun(s: State, actions: seq<Action>)
    requires Inv(s) && IsRun(s, actions)
    ensures Inv(ResultOf(s, actions)) && Keeps(s, ResultOf(s, actions))
    decreases |actions|
  {
    if actions != [] {
      ListStep(s, actions[0]);
      InvRun(Next(s, actions[0]), actions[1..]);
    }
  }

  /** Over every run of the code as it is: the list is linked, strictly ascending,
      and has every block that was ever put in. */
  lemma ListIsAscending(before: seq<Action>, after: seq<Action>)
    requires IsRun(Init(), before) && IsRun(ResultOf(Init(), before), after)
    ensures var s := ResultOf(Init(), before); var s' := ResultOf(s, after);
            && Links(s') && Ascending(s')
            && forall id :: id in s.chain ==> id in s'.chain && StartOf(s', id) == StartOf(s, id)
  {
    InvRun(Init(), before);
    InvRun(ResultOf(Init(), before), after);
  }
}
