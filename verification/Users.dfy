// Who has the database open, and that the files can always be brought back into
// use: over every run of the recovery machine.
module Users {
  import opened Bytes
  import opened Layout
  import opened FileFormat
  import opened Recovery
  import opened RecoveryProofs

  // ------------------------------------------------------------ counting

  /** The number of users after one more action, by the action alone. */
  function Counted(n: int, a: Action): int {
    match a
    case OpenBegin => 1
    case CreateDone => 1
    case Join => n + 1
    case Leave => n - 1
    case _ => n
  }

  function Count(n: int, actions: seq<Action>): int
    decreases |actions|
  {
    if actions == [] then n else Count(Counted(n, actions[0]), actions[1..])
  }

  lemma {:induction false} CountIsUsers(s: State, n: int, actions: seq<Action>)
    requires IsRun(s, actions) && (s.phase.Open? ==> s.phase.users == n)
    ensures After(s, actions).phase.Open? ==> After(s, actions).phase.users == Count(n, actions)
    decreases |actions|
  {
    if actions != [] {
      CountStep(s, n, actions[0]);
      CountIsUsers(Next(s, actions[0]), Counted(n, actions[0]), actions[1..]);
    }
  }

  lemma CountStep(s: State, n: int, a: Action)
    requires Enabled(s, a) && (s.phase.Open? ==> s.phase.users == n)
    ensures Next(s, a).phase.Open? ==> Next(s, a).phase.users == Counted(n, a)
  {
    hide LogValid, ReadEmbedded, SectionAt;
  }

  /** In every run the open database has as many users as have opened it since it was
      closed and have not left it. */
  lemma UsersAreCounted(actions: seq<Action>)
    requires IsRun(Init(), actions) && After(Init(), actions).phase.Open?
    ensures After(Init(), actions).phase.users == Count(0, actions)
  {
    CountIsUsers(Init(), 0, actions);
  }

  // --------------------------------------------------------------- names

  /** An action and the process that takes it. */
  datatype Deed = Deed(process: nat, action: Action)

  /** The processes that have the database open, by what they did. */
  function Present(users: set<nat>, deeds: seq<Deed>): set<nat>
    decreases |deeds|
  {
    if deeds == [] then users else Present(Changed(users, deeds[0]), deeds[1..])
  }

  function Changed(users: set<nat>, d: Deed): set<nat> {
    match d.action
    case OpenBegin => {d.process}
    case CreateDone => {d.process}
    case Join => users + {d.process}
    case Leave => users - {d.process}
    case _ => users
  }

  /** Who has the database open does not open it again; who has not, does not use or
      close it. */
  predicate InTurn(users: set<nat>, d: Deed) {
    match d.action
    case Join => d.process !in users
    case Extend => d.process in users
    case WriteSection(_, _, _) => d.process in users
    case Publish(_, _) => d.process in users
    case Leave => d.process in users
    case MergeBegin => d.process in users
    case _ => true
  }

  predicate IsHistory(s: State, users: set<nat>, deeds: seq<Deed>)
    decreases |deeds|
  {
    deeds == [] ||
    (Enabled(s, deeds[0].action) && InTurn(users, deeds[0])
     && IsHistory(Next(s, deeds[0].action), Changed(users, deeds[0]), deeds[1..]))
  }

  function Outcome(s: State, users: set<nat>, deeds: seq<Deed>): State
    requires IsHistory(s, users, deeds)
    decreases |deeds|
  {
    if deeds == [] then s else Outcome(Next(s, deeds[0].action), Changed(users, deeds[0]), deeds[1..])
  }

  lemma PresentStep(s: State, users: set<nat>, d: Deed)
    requires Enabled(s, d.action) && InTurn(users, d) && (s.phase.Open? ==> |users| == s.phase.users)
    ensures var s', users' := Next(s, d.action), Changed(users, d); s'.phase.Open? ==> |users'| == s'.phase.users
  {
    hide LogValid, ReadEmbedded, SectionAt;
  }

  lemma {:induction false} PresentRun(s: State, users: set<nat>, deeds: seq<Deed>)
    requires Inv(s) && IsHistory(s, users, deeds) && (s.phase.Open? ==> |users| == s.phase.users)
    ensures var s' := Outcome(s, users, deeds);
            Inv(s') && (s'.phase.Open? ==> |Present(users, deeds)| == s'.phase.users)
    decreases |deeds|
  {
    hide Inv, Next, Enabled;
    if deeds != [] {
      PresentStep(s, users, deeds[0]);
      InvStep(s, deeds[0].action);
      PresentRun(Next(s, deeds[0].action), Changed(users, deeds[0]), deeds[1..]);
    }
  }

  /** A close merges the log back if and only if all other processes that opened the
      database have left it; otherwise it leaves the files to them. */
  lemma LastOneMerges(deeds: seq<Deed>, p: nat)
    requires IsHistory(Init(), {}, deeds) && Outcome(Init(), {}, deeds).phase.Open? && p in Present({}, deeds)
    ensures var s := Outcome(Init(), {}, deeds);
            && (Enabled(s, MergeBegin) <==> Present({}, deeds) == {p})
            && (Enabled(s, Leave) <==> Present({}, deeds) != {p})
  {
    var s, users := Outcome(Init(), {}, deeds), Present({}, deeds);
    PresentRun(Init(), {}, deeds);
    assert SmallStore(s.store);
    OneOrMore(users, p);
  }

  lemma OneOrMore(users: set<nat>, p: nat)
    requires p in users
    ensures |users| >= 1 && (|users| == 1 <==> users == {p})
  {
    assert users == (users - {p}) + {p};
    if |users| == 1 { assert |users - {p}| == 0; }
  }

  // ------------------------------------------------------------ progress

  lemma First(s: State, a: Action, rest: seq<Action>)
    requires Enabled(s, a) && IsRun(Next(s, a), rest)
    ensures IsRun(s, [a] + rest) && After(s, [a] + rest) == After(Next(s, a), rest)
  {
    assert ([a] + rest)[1..] == rest;
  }

  /** In use by one process, with the content it had. */
  predicate InUse(s: State, store: Store) {
    s.phase == Open(1) && s.store == store && DB_HEADER <= s.db && LogHolds(s.db, s.log, store)
  }

  /** The log is created in two writes. */
  lemma Creates(s: State) returns (actions: seq<Action>)
    requires Inv(s) && s.phase.Creating?
    ensures IsRun(s, actions) && InUse(After(s, actions), s.store) && |actions| <= 3
  {
    hide Next, Enabled, LogHolds, DbHolds, EntriesOf, PartialLog;
    if s.phase.head == LOG_HEADER_SIZE {
      actions := CreateEnds(s);
    } else if s.phase.body == |EntriesOf(s.db)| {
      actions := HeaderEnds(s);
    } else {
      var s1 := BodyEnds(s);
      var rest := HeaderEnds(s1);
      First(s, CreateBody(|EntriesOf(s.db)|), rest);
      actions := [CreateBody(|EntriesOf(s.db)|)] + rest;
    }
  }

  lemma BodyEnds(s: State) returns (s': State)
    requires Inv(s) && s.phase.Creating? && s.phase.head < LOG_HEADER_SIZE && s.phase.body < |EntriesOf(s.db)|
    ensures Enabled(s, CreateBody(|EntriesOf(s.db)|)) && s' == Next(s, CreateBody(|EntriesOf(s.db)|))
    ensures Inv(s') && s'.phase == Creating(|EntriesOf(s'.db)|, 0) && s'.store == s.store && s'.db == s.db
  {
    s' := Next(s, CreateBody(|EntriesOf(s.db)|));
    InvStep(s, CreateBody(|EntriesOf(s.db)|));
  }

  lemma HeaderEnds(s: State) returns (actions: seq<Action>)
    requires Inv(s) && s.phase.Creating? && s.phase.head < LOG_HEADER_SIZE && s.phase.body == |EntriesOf(s.db)|
    ensures IsRun(s, actions) && InUse(After(s, actions), s.store) && |actions| == 2
  {
    hide LogHolds, DbHolds, PartialLog, LogValid;
    var s1 := Next(s, CreateHeader(LOG_HEADER_SIZE));
    InvStep(s, CreateHeader(LOG_HEADER_SIZE));
    var rest := CreateEnds(s1);
    First(s, CreateHeader(LOG_HEADER_SIZE), rest);
    actions := [CreateHeader(LOG_HEADER_SIZE)] + rest;
  }

  lemma CreateEnds(s: State) returns (actions: seq<Action>)
    requires Inv(s) && s.phase.Creating? && s.phase.head == LOG_HEADER_SIZE
    ensures IsRun(s, actions) && InUse(After(s, actions), s.store) && |actions| == 1
  {
    hide LogHolds, DbHolds, PartialLog, LogValid;
    actions := [CreateDone];
    InvStep(s, CreateDone);
    assert actions[1..] == [];
    assert After(Next(s, CreateDone), []) == Next(s, CreateDone);
  }

  /** Under the exclusive lock: a valid log is taken over, anything else is replaced. */
  lemma Opens(s: State) returns (actions: seq<Action>)
    requires Inv(s) && s.phase.Closed? && DB_HEADER <= s.db
    ensures IsRun(s, actions) && InUse(After(s, actions), s.store) && |actions| <= 5
    decreases if s.log.Some? then 1 else 0
  {
    hide LogHolds, DbHolds, PartialLog, LogValid, EntriesOf, ReadEmbedded;
    InvOpens(s);
    var s1 := Next(s, OpenBegin);
    InvStep(s, OpenBegin);
    var rest := [];
    if s1.phase.Creating? {
      rest := Creates(s1);
    } else if s1.phase.Closed? {
      rest := Replaces(s1);
    } else {
      assert After(s1, []) == s1;
    }
    First(s, OpenBegin, rest);
    actions := [OpenBegin] + rest;
  }

  /** There is no log any more. */
  lemma Replaces(s: State) returns (actions: seq<Action>)
    requires Inv(s) && s.phase.Closed? && DB_HEADER <= s.db && s.log.None?
    ensures IsRun(s, actions) && InUse(After(s, actions), s.store) && |actions| <= 4
  {
    hide LogHolds, DbHolds, PartialLog, LogValid, EntriesOf, ReadEmbedded;
    InvOpens(s);
    var s1 := Next(s, OpenBegin);
    InvStep(s, OpenBegin);
    var rest := Creates(s1);
    First(s, OpenBegin, rest);
    actions := [OpenBegin] + rest;
  }

  /** Whatever state the last process left the files in, the next one can open them,
      and has all committed content. */
  lemma Reopens(s: State) returns (actions: seq<Action>)
    requires Inv(s) && s.phase.Closed?
    ensures IsRun(s, actions) && InUse(After(s, actions), s.store) && |actions| <= 6
  {
    hide LogHolds, DbHolds, PartialLog, LogValid, EntriesOf, ReadEmbedded, Overwrite;
    var s1 := Next(s, WriteDbHeader(DB_HEADER_SIZE));
    InvStep(s, WriteDbHeader(DB_HEADER_SIZE));
    assert DB_HEADER[..DB_HEADER_SIZE] == DB_HEADER;
    HeaderWritten(s.db, DB_HEADER_SIZE);
    var rest := Opens(s1);
    First(s, WriteDbHeader(DB_HEADER_SIZE), rest);
    actions := [WriteDbHeader(DB_HEADER_SIZE)] + rest;
  }

  /** A process that fails or crashes while it creates or merges, or crashes as the
      only user, leaves the files closed, without a change of content. */
  lemma StopsClosed(s: State, a: Action)
    requires Inv(s) && Enabled(s, a) && (a.CreateFail? || a.MergeFail? || a.Crash?)
    ensures Next(s, a).phase.Closed? && Next(s, a).store == s.store && Inv(Next(s, a))
    ensures Next(s, a).db == s.db && Next(s, a).log == if a.CreateFail? then None else s.log
  {
    InvStep(s, a);
  }

  /** All processes stop, one by one. */
  lemma {:induction false} AllStop(s: State) returns (actions: seq<Action>)
    requires Inv(s)
    ensures IsRun(s, actions) && After(s, actions).phase.Closed?
    ensures After(s, actions).store == s.store && After(s, actions).db == s.db && Inv(After(s, actions))
    decreases if s.phase.Open? then s.phase.users else 0
  {
    hide LogHolds, DbHolds, LogValid, EntriesOf, ReadEmbedded;
    if s.phase.Closed? {
      actions := [];
    } else if s.phase.Open? && s.phase.users > 1 {
      InvStep(s, Leave);
      var rest := AllStop(Next(s, Leave));
      First(s, Leave, rest);
      actions := [Leave] + rest;
    } else {
      StopsClosed(s, Crash);
      assert After(Next(s, Crash), []) == Next(s, Crash);
      First(s, Crash, []);
      actions := [Crash] + [];
    }
  }

  /** From wherever a run leads: all processes may stop there, and the next one opens
      the database and has everything that was published. */
  lemma AlwaysBackInUse(actions: seq<Action>) returns (stops: seq<Action>, opens: seq<Action>)
    requires IsRun(Init(), actions)
    ensures var s := After(Init(), actions);
            && IsRun(s, stops) && After(s, stops).phase.Closed? && IsRun(After(s, stops), opens)
            && InUse(After(After(s, stops), opens), s.store)
            && forall i: nat :: ContentAt(After(After(s, stops), opens).store, i) == Published(actions, i)
  {
    var s := After(Init(), actions);
    InvRun(Init(), actions);
    stops := AllStop(s);
    opens := Reopens(After(s, stops));
    forall i: nat ensures ContentAt(s.store, i) == Published(actions, i) { StoreRun(Init(), actions, i); }
  }

  /** The last close: the log is at the end of the database, and nowhere else. */
  lemma LastClose(s: State) returns (actions: seq<Action>)
    requires Inv(s) && s.phase == Open(1)
    ensures IsRun(s, actions) && SmallStore(s.store) && DataEnd(Lens(s.store)) <= |s.db|
    ensures After(s, actions)
            == State(s.db[..DataEnd(Lens(s.store))] + Tail(s.store), None, Closed, Trim(s.store))
  {
    hide LogValid, Tail, DataEnd, Kept;
    DataEndWithin(s.db, s.store);
    assert SmallStore(s.store);
    var all := |Tail(s.store)|;
    assert all > 0 by { TailIsSome(s.store); }
    var s1 := Next(s, MergeBegin);
    var s2 := Next(s1, MergeWrite(all));
    var s3 := Next(s2, MergeUnlink);
    assert Tail(s.store)[0..all] == Tail(s.store);
    assert After(s3, []) == s3;
    First(s2, MergeUnlink, []);
    First(s1, MergeWrite(all), [MergeUnlink] + []);
    First(s, MergeBegin, [MergeWrite(all)] + ([MergeUnlink] + []));
    actions := [MergeBegin] + ([MergeWrite(all)] + ([MergeUnlink] + []));
  }

  lemma TailIsSome(store: Store)
    requires SmallStore(store)
    ensures |Tail(store)| > 0
  {
  }
}
