// Nested transactions of one thread (logdb_txn.c) as a function of the calls made,
// against a definition that does not mention a stack: a put is published if and
// only if every transaction around it commits.
module Scripts {
  import opened Bytes
  import opened Records

  datatype Op = Begin | Put(record: Record) | Commit | Rollback

  /** The bytes of each open transaction, innermost last, and what was published. */
  datatype Txns = Txns(frames: seq<seq<byte>>, published: seq<seq<byte>>)

  predicate AllStorable(ops: seq<Op>) {
    forall k :: 0 <= k < |ops| && ops[k].Put? ==> Storable(ops[k].record)
  }

  function Top(s: Txns): seq<byte>
    requires s.frames != []
  {
    s.frames[|s.frames| - 1]
  }

  function Outer(s: Txns): seq<seq<byte>>
    requires s.frames != []
  {
    s.frames[..|s.frames| - 1]
  }

  /** `logdb_txn_commit` of the innermost transaction, whose writes succeed. */
  function CommitTop(s: Txns): Txns
    requires s.frames != []
  {
    var outer := Outer(s);
    if Top(s) == [] then Txns(outer, s.published)
    else if outer != [] then Txns(outer[|outer| - 1 := outer[|outer| - 1] + Top(s)], s.published)
    else Txns([], s.published + [Top(s)])
  }

  /** `logdb_begin`, `logdb_put`, `logdb_commit`, `logdb_rollback`. A put is an
      implicit transaction; the last two fail without an open transaction. */
  function Step(s: Txns, op: Op): Txns
    requires op.Put? ==> Storable(op.record)
  {
    match op
    case Begin => Txns(s.frames + [[]], s.published)
    case Put(r) => CommitTop(Txns(s.frames + [Encode(r)], s.published))
    case Commit => if s.frames == [] then s else CommitTop(s)
    case Rollback => if s.frames == [] then s else Txns(Outer(s), s.published)
  }

  function Run(s: Txns, ops: seq<Op>): Txns
    requires AllStorable(ops)
    decreases |ops|
  {
    if ops == [] then s else Run(Step(s, ops[0]), ops[1..])
  }

  // ------------------------------------------------------------- reference

  /** With `around` transactions open around a put, and `inside` more that were
      begun since: do all of the former commit in `rest`? */
  predicate AllCommit(rest: seq<Op>, around: nat, inside: nat)
    decreases |rest|
  {
    if around == 0 then true
    else if rest == [] then false
    else match rest[0]
      case Begin => AllCommit(rest[1..], around, inside + 1)
      case Put(_) => AllCommit(rest[1..], around, inside)
      case Commit =>
        if inside > 0 then AllCommit(rest[1..], around, inside - 1) else AllCommit(rest[1..], around - 1, 0)
      case Rollback => inside > 0 && AllCommit(rest[1..], around, inside - 1)
  }

  function DepthAfter(depth: nat, op: Op): nat {
    match op
    case Begin => depth + 1
    case Put(_) => depth
    case _ => if depth == 0 then 0 else depth - 1
  }

  /** The records of the puts whose enclosing transactions all commit, in program
      order; `depth` transactions are open before `ops`. */
  function Surviving(ops: seq<Op>, depth: nat): seq<Record>
    decreases |ops|
  {
    if ops == [] then []
    else
      (if ops[0].Put? && AllCommit(ops[1..], depth, 0) then [ops[0].record] else [])
      + Surviving(ops[1..], DepthAfter(depth, ops[0]))
  }

  lemma {:induction false} SurvivingStorable(ops: seq<Op>, depth: nat)
    requires AllStorable(ops)
    ensures forall r :: r in Surviving(ops, depth) ==> Storable(r)
    decreases |ops|
  {
    if ops != [] { SurvivingStorable(ops[1..], DepthAfter(depth, ops[0])); }
  }

  function SurvivingBytes(ops: seq<Op>, depth: nat): seq<byte>
    requires AllStorable(ops)
  {
    SurvivingStorable(ops, depth);
    EncodeAll(Surviving(ops, depth))
  }

  /** What of the open transactions will be published. The bytes of frame `k`
      need the commits of frames `k`, `k - 1`, ..., 0. */
  function FramesSurviving(frames: seq<seq<byte>>, rest: seq<Op>, inside: nat): seq<byte>
    decreases |frames|
  {
    if frames == [] then []
    else
      FramesSurviving(frames[..|frames| - 1], rest, inside + 1)
      + (if AllCommit(rest, |frames|, inside) then frames[|frames| - 1] else [])
  }

  /** Rolling back, or ending, inside of frames that are left alone. */
  lemma {:induction false} FramesShift(frames: seq<seq<byte>>, rest: seq<Op>, inside: nat)
    requires rest != []
    ensures rest[0].Begin? ==> FramesSurviving(frames, rest, inside) == FramesSurviving(frames, rest[1..], inside + 1)
    ensures rest[0].Put? ==> FramesSurviving(frames, rest, inside) == FramesSurviving(frames, rest[1..], inside)
    ensures (rest[0].Commit? || rest[0].Rollback?) && inside > 0 ==>
              FramesSurviving(frames, rest, inside) == FramesSurviving(frames, rest[1..], inside - 1)
    decreases |frames|
  {
    if frames != [] { FramesShift(frames[..|frames| - 1], rest, inside + 1); }
  }

  lemma {:induction false} NothingSurvives(frames: seq<seq<byte>>, inside: nat)
    ensures FramesSurviving(frames, [], inside) == []
    decreases |frames|
  {
    if frames != [] { NothingSurvives(frames[..|frames| - 1], inside + 1); }
  }

  /** What the rest of the script makes of a state. */
  function Outcome(s: Txns, ops: seq<Op>): seq<byte>
    requires AllStorable(ops)
  {
    Flatten(s.published) + FramesSurviving(s.frames, ops, 0) + SurvivingBytes(ops, |s.frames|)
  }

  /** Appending to the last frame. */
  lemma FramesGrow(outer: seq<seq<byte>>, rest: seq<Op>, bytes: seq<byte>)
    requires outer != []
    ensures var n := |outer| - 1;
            FramesSurviving(outer[n := outer[n] + bytes], rest, 0)
            == FramesSurviving(outer, rest, 0) + if AllCommit(rest, |outer|, 0) then bytes else []
  {
    var n := |outer| - 1;
    assert outer[n := outer[n] + bytes][..n] == outer[..n];
  }

  /** Committing the innermost frame keeps what will be published. */
  lemma CommitTopOutcome(s: Txns, rest: seq<Op>)
    requires s.frames != []
    ensures var s' := CommitTop(s);
            && |s'.frames| == |s.frames| - 1
            && Flatten(s'.published) + FramesSurviving(s'.frames, rest, 0)
            == Flatten(s.published) + FramesSurviving(Outer(s), rest, 0)
               + if AllCommit(rest, |s.frames| - 1, 0) then Top(s) else []
  {
    var outer := Outer(s);
    if Top(s) != [] {
      if outer != [] {
        FramesGrow(outer, rest, Top(s));
      } else {
        FlattenAppend(s.published, Top(s));
      }
    }
  }

  lemma SurvivingBytesStep(ops: seq<Op>, depth: nat)
    requires AllStorable(ops) && ops != []
    ensures SurvivingBytes(ops, depth)
            == (if ops[0].Put? && AllCommit(ops[1..], depth, 0) then Encode(ops[0].record) else [])
               + SurvivingBytes(ops[1..], DepthAfter(depth, ops[0]))
  {
    hide AllCommit, Encode, DepthAfter;
    SurvivingStorable(ops[1..], DepthAfter(depth, ops[0]));
    SurvivingStorable(ops, depth);
    var rest := Surviving(ops[1..], DepthAfter(depth, ops[0]));
    if ops[0].Put? && AllCommit(ops[1..], depth, 0) {
      assert Surviving(ops, depth) == [ops[0].record] + rest;
      assert Surviving(ops, depth)[1..] == rest;
    } else {
      assert Surviving(ops, depth) == rest;
    }
  }

  /** What one call adds to the outcome. */
  function Added(op: Op, rest: seq<Op>, depth: nat): seq<byte>
    requires op.Put? ==> Storable(op.record)
  {
    if op.Put? && AllCommit(rest, depth, 0) then Encode(op.record) else []
  }

  lemma StepAdds(s: Txns, ops: seq<Op>)
    requires AllStorable(ops) && ops != []
    ensures var s' := Step(s, ops[0]);
            && |s'.frames| == DepthAfter(|s.frames|, ops[0])
            && Flatten(s'.published) + FramesSurviving(s'.frames, ops[1..], 0)
               == Flatten(s.published) + FramesSurviving(s.frames, ops, 0) + Added(ops[0], ops[1..], |s.frames|)
  {
    hide AllCommit, FramesSurviving, Encode, CommitTop;
    var rest := ops[1..];
    FramesShift(s.frames, ops, 0);
    match ops[0]
    case Begin => BeginOutcome(s, rest);
    case Put(r) => PutOutcome(s, r, rest);
    case Commit => if s.frames != [] { EndOutcome(s, ops); CommitTopOutcome(s, rest); } else { NoFrames(ops, rest); }
    case Rollback => if s.frames != [] { EndOutcome(s, ops); } else { NoFrames(ops, rest); }
  }

  lemma NoFrames(ops: seq<Op>, rest: seq<Op>)
    ensures FramesSurviving([], ops, 0) == FramesSurviving([], rest, 0) == []
  {
  }

  lemma StepOutcome(s: Txns, ops: seq<Op>)
    requires AllStorable(ops) && ops != []
    ensures Outcome(Step(s, ops[0]), ops[1..]) == Outcome(s, ops)
  {
    hide SurvivingBytes, FramesSurviving, Step, DepthAfter;
    StepAdds(s, ops);
    SurvivingBytesStep(ops, |s.frames|);
  }

  lemma BeginOutcome(s: Txns, rest: seq<Op>)
    ensures FramesSurviving(s.frames + [[]], rest, 0) == FramesSurviving(s.frames, rest, 1)
  {
    assert (s.frames + [[]])[..|s.frames|] == s.frames;
  }

  lemma PutOutcome(s: Txns, r: Record, rest: seq<Op>)
    requires Storable(r)
    ensures var s' := Step(s, Put(r));
            && |s'.frames| == |s.frames|
            && Flatten(s'.published) + FramesSurviving(s'.frames, rest, 0)
               == Flatten(s.published) + FramesSurviving(s.frames, rest, 0)
                  + if AllCommit(rest, |s.frames|, 0) then Encode(r) else []
  {
    var t := Txns(s.frames + [Encode(r)], s.published);
    assert Outer(t) == s.frames;
    CommitTopOutcome(t, rest);
  }

  lemma EndOutcome(s: Txns, ops: seq<Op>)
    requires ops != [] && (ops[0].Commit? || ops[0].Rollback?) && s.frames != []
    ensures FramesSurviving(s.frames, ops, 0)
            == FramesSurviving(Outer(s), ops[1..], 0)
               + if ops[0].Commit? && AllCommit(ops[1..], |s.frames| - 1, 0) then Top(s) else []
  {
    FramesShift(Outer(s), ops, 1);
  }

  lemma {:induction false} RunOutcome(s: Txns, ops: seq<Op>)
    requires AllStorable(ops)
    ensures Flatten(Run(s, ops).published) == Outcome(s, ops)
    decreases |ops|
  {
    if ops == [] {
      NothingSurvives(s.frames, 0);
    } else {
      StepOutcome(s, ops[0..]);
      assert ops[0..] == ops;
      RunOutcome(Step(s, ops[0]), ops[1..]);
    }
  }

  /** The bytes published by any script are the records of exactly the puts whose
      enclosing transactions all commit, in program order. */
  lemma PublishedAreSurvivors(ops: seq<Op>)
    requires AllStorable(ops)
    ensures Flatten(Run(Txns([], []), ops).published) == SurvivingBytes(ops, 0)
    ensures Whole(Flatten(Run(Txns([], []), ops).published))
    ensures RecordsOf(Flatten(Run(Txns([], []), ops).published)) == Surviving(ops, 0)
  {
    RunOutcome(Txns([], []), ops);
    SurvivingStorable(ops, 0);
    RecordsRoundTrip(Surviving(ops, 0));
  }

  /** Each transaction that is published is a sequence of records. */
  predicate WholeTxns(s: Txns) {
    && (forall k :: 0 <= k < |s.frames| ==> Whole(s.frames[k]))
    && (forall k :: 0 <= k < |s.published| ==> Whole(s.published[k]))
  }

  lemma WholeStep(s: Txns, op: Op)
    requires WholeTxns(s) && (op.Put? ==> Storable(op.record))
    ensures WholeTxns(Step(s, op))
  {
    match op
    case Put(r) =>
      EncodeStarts(r, []);
      assert Encode(r) + [] == Encode(r);
      WholeCommit(Txns(s.frames + [Encode(r)], s.published));
    case Commit => if s.frames != [] { WholeCommit(s); }
    case _ =>
  }

  lemma WholeCommit(s: Txns)
    requires WholeTxns(s) && s.frames != []
    ensures WholeTxns(CommitTop(s))
  {
    var outer := Outer(s);
    if outer != [] { WholeConcat(outer[|outer| - 1], Top(s)); }
  }
}
