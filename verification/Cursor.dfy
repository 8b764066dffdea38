// What the calls of logdb_iter.c do to an iterator, as a function of the
// committed bytes, and which records a caller gets to see.
module Cursor {
  import opened Bytes
  import opened FileFormat
  import opened Records

  /** `taken` is what the read lease covers; the current record begins at `start`. */
  datatype Cursor = Cursor(leased: bool, index: nat, taken: seq<byte>, start: nat, key: bool, value: bool)

  predicate Current(c: Cursor) {
    c.leased && c.start < |c.taken|
  }

  /** Leases end on record boundaries, and reading a value reads the key first. */
  predicate CursorOk(c: Cursor) {
    c.leased ==> c.start <= |c.taken| && Whole(c.taken[c.start..]) && (c.value ==> c.key)
  }

  predicate WholeStore(store: Store) {
    forall i :: 0 <= i < |store| ==> Whole(store[i])
  }

  function RecordEnd(c: Cursor): nat
    requires CursorOk(c) && Current(c)
    ensures c.start + RECORD_HEADER_SIZE <= RecordEnd(c) <= |c.taken|
  {
    c.start + Size(c.taken[c.start..])
  }

  function CurrentRecord(c: Cursor): Record
    requires CursorOk(c) && Current(c)
  {
    FirstRecord(c.taken[c.start..])
  }

  /** `lease.offset`. */
  function Position(c: Cursor): nat
    requires CursorOk(c) && c.leased
    ensures Position(c) <= |c.taken|
  {
    if Current(c) then
      var rest := c.taken[c.start..];
      c.start + RECORD_HEADER_SIZE + (if c.key then KeyLen(rest) else 0) + (if c.value then ValueLen(rest) else 0)
    else |c.taken|
  }

  /** `lease.len`. */
  function Unread(c: Cursor): nat
    requires CursorOk(c) && c.leased
  {
    |c.taken| - Position(c)
  }

  function NextNonEmpty(store: Store, i: nat): (j: nat)
    ensures i <= j
    ensures j < |store| ==> store[j] != []
    ensures forall k :: i <= k < j && k < |store| ==> store[k] == []
    decreases |store| - i
  {
    if i < |store| && store[i] == [] then NextNonEmpty(store, i + 1) else i
  }

  /** `logdb_iter_next`: the new cursor and the value returned. */
  function Step(c: Cursor, store: Store): (Cursor, bool)
    requires CursorOk(c)
  {
    if c.leased && Unread(c) >= RECORD_HEADER_SIZE then
      (Cursor(true, c.index, c.taken, RecordEnd(c), false, false), RecordEnd(c) < |c.taken|)
    else
      var i := NextNonEmpty(store, if c.leased then c.index + 1 else 0);
      if i < |store| then (Cursor(true, i, store[i], 0, false, false), true) else (c.(leased := false), false)
  }

  lemma StepOk(c: Cursor, store: Store)
    requires CursorOk(c) && WholeStore(store)
    ensures CursorOk(Step(c, store).0) && (Step(c, store).1 ==> Current(Step(c, store).0))
  {
    if c.leased && Unread(c) >= RECORD_HEADER_SIZE {
      assert c.taken[c.start..][Size(c.taken[c.start..])..] == c.taken[RecordEnd(c)..];
    } else {
      var i := NextNonEmpty(store, if c.leased then c.index + 1 else 0);
      if i < |store| { assert store[i][0..] == store[i]; }
    }
  }

  /** What the caller reads of a record. */
  datatype Choice = Nothing | KeyOnly | KeyAndValue

  function Choose(c: Cursor, choice: Choice): Cursor {
    c.(key := !choice.Nothing?, value := choice.KeyAndValue?)
  }

  function LeftUnread(r: Record, choice: Choice): nat {
    match choice
    case Nothing => |r.key| + |r.value|
    case KeyOnly => |r.value|
    case KeyAndValue => 0
  }

  /** Between two records of a section it makes no difference what was read. */
  lemma SkippingEqualsReading(c: Cursor, store: Store, choice: Choice)
    requires CursorOk(c) && Current(c) && RecordEnd(c) < |c.taken|
    ensures Step(Choose(c, choice), store) == (Cursor(true, c.index, c.taken, RecordEnd(c), false, false), true)
  {
    var d := Choose(c, choice);
    assert d.taken[d.start..] == c.taken[c.start..];
    assert Whole(c.taken[c.start..][Size(c.taken[c.start..])..]);
    assert RecordEnd(d) == RecordEnd(c);
    assert |c.taken| - RecordEnd(c) >= RECORD_HEADER_SIZE;
    assert Position(d) <= RecordEnd(d);
  }

  // ---------------------------------------------------- whole iterations

  /** A record, and whether it is the last of its section. */
  datatype Item = Item(record: Record, last: bool)

  function ItemsOf(bytes: seq<byte>): seq<Item>
    requires Whole(bytes)
    decreases |bytes|
  {
    if bytes == [] then []
    else [Item(FirstRecord(bytes), Size(bytes) == |bytes|)] + ItemsOf(bytes[Size(bytes)..])
  }

  function AllItems(store: Store, from: nat): seq<Item>
    requires WholeStore(store)
    decreases |store| - from
  {
    if from >= |store| then [] else ItemsOf(store[from]) + AllItems(store, from + 1)
  }

  /** Every record, in section order and then offset order. */
  function AllRecords(store: Store, from: nat): seq<Record>
    requires WholeStore(store)
    decreases |store| - from
  {
    if from >= |store| then [] else RecordsOf(store[from]) + AllRecords(store, from + 1)
  }

  function RecordsIn(items: seq<Item>): seq<Record> {
    seq(|items|, i requires 0 <= i < |items| => items[i].record)
  }

  lemma {:induction false} ItemsAreRecords(bytes: seq<byte>)
    requires Whole(bytes)
    ensures RecordsIn(ItemsOf(bytes)) == RecordsOf(bytes)
    decreases |bytes|
  {
    if bytes != [] { ItemsAreRecords(bytes[Size(bytes)..]); }
  }

  lemma {:induction false} AllItemsAreRecords(store: Store, from: nat)
    requires WholeStore(store)
    ensures RecordsIn(AllItems(store, from)) == AllRecords(store, from)
    decreases |store| - from
  {
    if from < |store| {
      ItemsAreRecords(store[from]);
      AllItemsAreRecords(store, from + 1);
    }
  }

  lemma {:induction false} EmptySectionsHaveNoItems(store: Store, i: nat)
    requires WholeStore(store)
    ensures AllItems(store, i) == AllItems(store, NextNonEmpty(store, i))
    decreases |store| - i
  {
    if i < |store| && store[i] == [] { EmptySectionsHaveNoItems(store, i + 1); }
  }

  /** The records behind the current one. */
  function ItemsAfter(c: Cursor, store: Store): seq<Item>
    requires CursorOk(c) && WholeStore(store)
  {
    if !c.leased then AllItems(store, 0)
    else if Current(c) then
      assert c.taken[c.start..][Size(c.taken[c.start..])..] == c.taken[RecordEnd(c)..];
      ItemsOf(c.taken[RecordEnd(c)..]) + AllItems(store, c.index + 1)
    else AllItems(store, c.index + 1)
  }

  /** The cursor is on the last record of a section and at least a header's size
      of it was not read. */
  predicate Stuck(c: Cursor)
    requires CursorOk(c)
  {
    Current(c) && RecordEnd(c) == |c.taken| && Unread(c) >= RECORD_HEADER_SIZE
  }

  /** The records a caller sees who stops when `logdb_iter_next` returns 0. */
  function Visit(c: Cursor, store: Store, choices: seq<Choice>): seq<Record>
    requires CursorOk(c) && WholeStore(store)
    decreases |choices|
  {
    StepOk(c, store);
    if choices == [] || !Step(c, store).1 then []
    else
      var d := Step(c, store).0;
      [CurrentRecord(d)] + Visit(Choose(d, choices[0]), store, choices[1..])
  }

  function VisitItems(items: seq<Item>, choices: seq<Choice>): seq<Record>
    decreases |items|
  {
    if items == [] || choices == [] then []
    else
      [items[0].record] +
      (if items[0].last && LeftUnread(items[0].record, choices[0]) >= RECORD_HEADER_SIZE then []
       else VisitItems(items[1..], choices[1..]))
  }

  lemma RestIsWhole(c: Cursor)
    requires CursorOk(c) && Current(c)
    ensures Whole(c.taken[RecordEnd(c)..])
    ensures c.taken[c.start..][Size(c.taken[c.start..])..] == c.taken[RecordEnd(c)..]
    ensures RecordEnd(c) < |c.taken| ==> Unread(c) >= RECORD_HEADER_SIZE
  {
    hide KeyLen, ValueLen;
    assert c.taken[c.start..][Size(c.taken[c.start..])..] == c.taken[RecordEnd(c)..];
    assert Position(c) <= RecordEnd(c) by { PositionBound(c); }
  }

  lemma PositionBound(c: Cursor)
    requires CursorOk(c) && Current(c)
    ensures Position(c) <= RecordEnd(c)
  {
  }

  /** The cursor `logdb_iter_next` leaves behind when it returns 1. */
  function AtRecord(index: nat, taken: seq<byte>, start: nat): Cursor {
    Cursor(true, index, taken, start, false, false)
  }

  lemma ItemsFrom(d: Cursor, store: Store)
    requires CursorOk(d) && Current(d) && WholeStore(store)
    ensures ItemsOf(d.taken[d.start..])
            == [Item(CurrentRecord(d), RecordEnd(d) == |d.taken|)] + ItemsOf(d.taken[RecordEnd(d)..])
    ensures ItemsAfter(d, store) == ItemsOf(d.taken[RecordEnd(d)..]) + AllItems(store, d.index + 1)
  {
    hide KeyLen, ValueLen, FirstRecord, ItemsOf, AllItems;
    RestIsWhole(d);
    UnfoldItems(d.taken[d.start..]);
  }

  lemma UnfoldItems(bytes: seq<byte>)
    requires Whole(bytes) && bytes != []
    ensures ItemsOf(bytes)
            == [Item(FirstRecord(bytes), Size(bytes) == |bytes|)] + ItemsOf(bytes[Size(bytes)..])
  {
  }

  /** The step stays in its section. */
  lemma StepWithin(c: Cursor, store: Store)
    requires CursorOk(c) && Current(c) && WholeStore(store) && RecordEnd(c) < |c.taken|
    ensures var d := AtRecord(c.index, c.taken, RecordEnd(c));
            && Step(c, store) == (d, true) && CursorOk(d) && Current(d)
            && ItemsAfter(c, store) == [Item(CurrentRecord(d), RecordEnd(d) == |d.taken|)] + ItemsAfter(d, store)
  {
    hide KeyLen, ValueLen, FirstRecord, Size, Position, Starts, ItemsAfter;
    RestIsWhole(c);
    ItemsFrom(c, store);
    ItemsFrom(AtRecord(c.index, c.taken, RecordEnd(c)), store);
  }

  /** The step looks for another section. */
  lemma StepAcross(c: Cursor, store: Store)
    requires CursorOk(c) && WholeStore(store) && (c.leased ==> Unread(c) < RECORD_HEADER_SIZE)
    ensures CursorOk(Step(c, store).0) && !Stuck(c)
    ensures Step(c, store).1 <==> ItemsAfter(c, store) != []
    ensures Step(c, store).1 ==>
              var d := Step(c, store).0;
              && Current(d)
              && ItemsAfter(c, store) == [Item(CurrentRecord(d), RecordEnd(d) == |d.taken|)] + ItemsAfter(d, store)
    ensures !Step(c, store).1 ==> !Step(c, store).0.leased
  {
    hide KeyLen, ValueLen, FirstRecord, Size, Position, Starts, ItemsAfter, ItemsOf;
    var from := if c.leased then c.index + 1 else 0;
    var i := NextNonEmpty(store, from);
    NothingLeft(c, store);
    EmptySectionsHaveNoItems(store, from);
    if i < |store| {
      assert store[i][0..] == store[i];
      ItemsFrom(AtRecord(i, store[i], 0), store);
    }
  }

  /** Less than a header left means that this was the last record. */
  lemma NothingLeft(c: Cursor, store: Store)
    requires CursorOk(c) && WholeStore(store) && (c.leased ==> Unread(c) < RECORD_HEADER_SIZE)
    ensures ItemsAfter(c, store) == AllItems(store, if c.leased then c.index + 1 else 0)
  {
    hide KeyLen, ValueLen, FirstRecord, Position;
    if Current(c) {
      RestIsWhole(c);
      assert RecordEnd(c) == |c.taken| && ItemsOf(c.taken[RecordEnd(c)..]) == [];
    }
  }

  /** The step fails although there may be more: see `Stuck`. */
  lemma StepStuck(c: Cursor, store: Store)
    requires CursorOk(c) && WholeStore(store) && Stuck(c)
    ensures Step(c, store) == (AtRecord(c.index, c.taken, |c.taken|), false)
    ensures CursorOk(Step(c, store).0) && ItemsAfter(Step(c, store).0, store) == AllItems(store, c.index + 1)
  {
    assert c.taken[|c.taken|..] == [];
  }

  lemma StepItems(c: Cursor, store: Store)
    requires CursorOk(c) && WholeStore(store)
    ensures CursorOk(Step(c, store).0)
    ensures Step(c, store).1 <==> !Stuck(c) && ItemsAfter(c, store) != []
    ensures Step(c, store).1 ==>
              var d := Step(c, store).0;
              && Current(d)
              && ItemsAfter(c, store) == [Item(CurrentRecord(d), RecordEnd(d) == |d.taken|)] + ItemsAfter(d, store)
  {
    hide KeyLen, ValueLen, FirstRecord, Size, Position, ItemsAfter, Step, CursorOk;
    if Stuck(c) {
      StepStuck(c, store);
    } else if Current(c) && RecordEnd(c) < |c.taken| {
      StepWithin(c, store);
    } else {
      AtEnd(c);
      StepAcross(c, store);
    }
  }

  lemma AtEnd(c: Cursor)
    requires CursorOk(c) && !Stuck(c) && !(Current(c) && RecordEnd(c) < |c.taken|)
    ensures c.leased ==> Unread(c) < RECORD_HEADER_SIZE
  {
    hide KeyLen, ValueLen, Size;
  }

  lemma ChooseItems(d: Cursor, store: Store, choice: Choice)
    requires CursorOk(d) && Current(d) && WholeStore(store)
    ensures CursorOk(Choose(d, choice)) && ItemsAfter(Choose(d, choice), store) == ItemsAfter(d, store)
    ensures Stuck(Choose(d, choice))
            <==> RecordEnd(d) == |d.taken| && LeftUnread(CurrentRecord(d), choice) >= RECORD_HEADER_SIZE
  {
    hide KeyLen, ValueLen, ItemsOf, AllItems;
    var rest := d.taken[d.start..];
    assert Starts(rest);
    LeftUnreadIs(rest, choice);
  }

  lemma LeftUnreadIs(rest: seq<byte>, choice: Choice)
    requires Starts(rest)
    ensures LeftUnread(FirstRecord(rest), choice)
            == Size(rest) - RECORD_HEADER_SIZE - (if choice.Nothing? then 0 else KeyLen(rest))
               - (if choice.KeyAndValue? then ValueLen(rest) else 0)
  {
    hide KeyLen, ValueLen;
  }

  lemma {:induction false} VisitIsItems(c: Cursor, store: Store, choices: seq<Choice>)
    requires CursorOk(c) && WholeStore(store)
    ensures Visit(c, store, choices) == if Stuck(c) then [] else VisitItems(ItemsAfter(c, store), choices)
    decreases |choices|
  {
    hide Stuck, ItemsAfter, Step, CursorOk;
    StepItems(c, store);
    StepOk(c, store);
    if choices != [] && Step(c, store).1 {
      var d := Step(c, store).0;
      ChooseItems(d, store, choices[0]);
      VisitIsItems(Choose(d, choices[0]), store, choices[1..]);
      assert ItemsAfter(c, store)[1..] == ItemsAfter(d, store);
    }
  }

  /** No record but the very last one may be the last of its section and be left
      with eight or more bytes unread. */
  predicate NothingSkippedAtSectionEnds(items: seq<Item>, choices: seq<Choice>)
    requires |items| <= |choices|
  {
    forall k :: 0 <= k < |items| - 1 && items[k].last ==> LeftUnread(items[k].record, choices[k]) < RECORD_HEADER_SIZE
  }

  lemma {:induction false} VisitItemsExactly(items: seq<Item>, choices: seq<Choice>)
    requires |items| <= |choices|
    ensures VisitItems(items, choices) <= RecordsIn(items)
    ensures VisitItems(items, choices) == RecordsIn(items) <==> NothingSkippedAtSectionEnds(items, choices)
  {
    if items != [] {
      var seen, all := VisitItems(items[1..], choices[1..]), RecordsIn(items[1..]);
      VisitItemsExactly(items[1..], choices[1..]);
      assert RecordsIn(items) == [items[0].record] + all;
      if items[0].last && LeftUnread(items[0].record, choices[0]) >= RECORD_HEADER_SIZE {
        assert |items| > 1 ==> !NothingSkippedAtSectionEnds(items, choices);
      } else {
        assert VisitItems(items, choices) == [items[0].record] + seen;
        assert ([items[0].record] + seen)[1..] == seen && RecordsIn(items)[1..] == all;
        TailOfChoices(items, choices);
      }
    }
  }

  lemma TailOfChoices(items: seq<Item>, choices: seq<Choice>)
    requires 0 < |items| <= |choices|
    requires !(items[0].last && LeftUnread(items[0].record, choices[0]) >= RECORD_HEADER_SIZE)
    ensures NothingSkippedAtSectionEnds(items, choices) <==> NothingSkippedAtSectionEnds(items[1..], choices[1..])
  {
    if NothingSkippedAtSectionEnds(items[1..], choices[1..]) {
      forall k | 0 <= k < |items| - 1 && items[k].last
        ensures LeftUnread(items[k].record, choices[k]) < RECORD_HEADER_SIZE
      {
        if k > 0 { assert items[1..][k - 1] == items[k] && choices[1..][k - 1] == choices[k]; }
      }
    }
    if NothingSkippedAtSectionEnds(items, choices) {
      forall k | 0 <= k < |items| - 2 && items[1..][k].last
        ensures LeftUnread(items[1..][k].record, choices[1..][k]) < RECORD_HEADER_SIZE
      {
        assert items[k + 1].last;
      }
    }
  }

  function NewCursor(): Cursor {
    Cursor(false, 0, [], 0, false, false)
  }

  /** An iteration shows a prefix of all records in order; it shows all of them
      exactly if every section but the last is read to within a header's size of
      its end. */
  lemma IterationIsCompleteExactly(store: Store, choices: seq<Choice>)
    requires WholeStore(store) && |AllItems(store, 0)| <= |choices|
    ensures Visit(NewCursor(), store, choices) <= AllRecords(store, 0)
    ensures Visit(NewCursor(), store, choices) == AllRecords(store, 0)
            <==> NothingSkippedAtSectionEnds(AllItems(store, 0), choices)
  {
    VisitIsItems(NewCursor(), store, choices);
    VisitItemsExactly(AllItems(store, 0), choices);
    AllItemsAreRecords(store, 0);
  }

  /** Reading every value shows everything. */
  lemma ReadingShowsEverything(store: Store, choices: seq<Choice>)
    requires WholeStore(store) && |AllItems(store, 0)| <= |choices|
    requires forall k :: 0 <= k < |choices| ==> choices[k] == KeyAndValue
    ensures Visit(NewCursor(), store, choices) == AllRecords(store, 0)
  {
    IterationIsCompleteExactly(store, choices);
  }

  /** After an early end, another call goes on with the next section; after the
      real end, another call starts again at section 0. */
  lemma CallingAgain(c: Cursor, store: Store, choices: seq<Choice>)
    requires CursorOk(c) && WholeStore(store) && !Step(c, store).1
    ensures CursorOk(Step(c, store).0)
    ensures Visit(Step(c, store).0, store, choices)
            == VisitItems(AllItems(store, if Stuck(c) then c.index + 1 else 0), choices)
  {
    hide KeyLen, ValueLen, Size, Position, ItemsAfter, Step, CursorOk;
    StepItems(c, store);
    VisitIsItems(Step(c, store).0, store, choices);
    if Stuck(c) {
      StepStuck(c, store);
    } else {
      AtEndAgain(c, store);
      StepAcross(c, store);
      NotLeased(Step(c, store).0, store);
    }
  }

  lemma AtEndAgain(c: Cursor, store: Store)
    requires CursorOk(c) && WholeStore(store) && !Step(c, store).1 && !Stuck(c)
    ensures c.leased ==> Unread(c) < RECORD_HEADER_SIZE
  {
    hide Position;
    if Current(c) && RecordEnd(c) < |c.taken| { StepWithin(c, store); }
    AtEnd(c);
  }

  lemma NotLeased(d: Cursor, store: Store)
    requires CursorOk(d) && WholeStore(store) && !d.leased
    ensures ItemsAfter(d, store) == AllItems(store, 0) && !Stuck(d)
  {
  }
}
