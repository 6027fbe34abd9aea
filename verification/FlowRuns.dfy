/** Every event keeps the invariant, so it holds after every schedule. */
module FlowRuns {
  import opened FlowTypes
  import opened Frames
  import opened Lists
  import opened FlowState
  import opened FlowInvariant
  import opened FlowFrames
  import opened FlowProcess
  import opened FlowInsert
  import opened FlowOpen
  import opened FlowCleanup
  import opened FlowExport
  import opened FlowCleared
  import opened Sessionization

  // ---------------------------------------------------------------- the packet reaches insertFlow

  lemma FilledKeeps(s: State, o: Own, f: Frame, k: Key)
    requires Inv(s, o) && s.pc.Filling? && s.aux.Some?
    ensures s.aux.value < |s.sess|
    ensures Inv(Filled(s, f, k), o)
    ensures Sess(Filled(s, f, k), s.aux.value) ==
      Session(k, s.now, s.now, 1, f.len, Sess(s, s.aux.value).activeNode)
  {
    AuxIsNotHeld(s, o);
    QuietKeeps(s, Filled(s, f, k), o);
  }

  lemma InsertKeeps(s: State, o: Own, f: Frame, k: Key) returns (o': Own)
    requires Inv(s, o) && s.pc == Filling(f) && s.aux.Some? && s.aux.value < |s.sess|
    requires Parse(f) == FlowPacket(k)
    requires Sess(s, s.aux.value) == Session(k, s.now, s.now, 1, f.len, Sess(s, s.aux.value).activeNode)
    ensures Inv(InsertFlow(s, f, s.aux.value, k), o')
  {
    var b := Bucket(s, GetIndex(k));
    var i := FirstMatch(s, b, k);
    if i < |b| {
      MatchIsRecorded(s, o, k);
    }
    if i < |b| && Elapsed(s.now, Sess(s, SessionOf(s, b[i])).last) <= EXPIRATION_FLOW_TIME {
      var x := SessionOf(s, b[i]);
      UpdateKeeps(s, o, k, b[i], Sess(s, x).activeNode, x, Packet(k, s.now, f.len));
      o' := o;
    } else {
      PoolSuffices(s);
      SearchFails(s, o, k);
      o' := FirstKeeps(s, o, f, s.aux.value);
    }
  }

  /** A frame that is ignored or counted as malformed moves nothing. */
  lemma IgnoredKeeps(s: State, o: Own, f: Frame)
    requires Inv(s, o) && s.pc == Filling(f) && s.aux.Some? && !ParseInto(f, Sess(s, s.aux.value).key).FlowPacket?
    ensures Inv(FillingStep(s, f), o)
  {
    QuietKeeps(s, FillingStep(s, f), o);
  }

  lemma PacketKeeps(s: State, o: Own, f: Frame, k: Key) returns (o': Own)
    requires Inv(s, o) && s.pc == Filling(f) && s.aux.Some? && Parse(f) == FlowPacket(k)
    ensures Inv(InsertFlow(Filled(s, f, k), f, s.aux.value, k), o')
  {
    FilledKeeps(s, o, f, k);
    o' := InsertKeeps(Filled(s, f, k), o, f, k);
  }

  lemma FillingKeeps(s: State, o: Own, f: Frame) returns (o': Own)
    requires Inv(s, o) && Cleared(s) && s.pc == Filling(f)
    ensures Inv(FillingStep(s, f), o')
  {
    ParsesAfresh(s, f);
    if Parse(f).FlowPacket? {
      FillingInserts(s, f, Parse(f).key);
      o' := PacketKeeps(s, o, f, Parse(f).key);
    } else {
      IgnoredKeeps(s, o, f);
      o' := o;
    }
  }

  // ---------------------------------------------------------------- one event

  lemma CleaningKeeps(s: State, o: Own) returns (o': Own)
    requires Inv(s, o) && s.pc.Cleaning?
    ensures Inv(ProcessStep(s), o')
  {
    if TailExpired(s) {
      o' := ExpireKeeps(s, o);
    } else {
      o' := SpliceKeeps(s, o);
    }
  }

  lemma ProcessKeeps(s: State, o: Own) returns (o': Own)
    requires Inv(s, o) && Cleared(s)
    ensures Inv(ProcessStep(s), o')
  {
    o' := o;
    match s.pc
    case Idle =>
    case Cleaning(_) => o' := CleaningKeeps(s, o);
    case Parsing(f) => o' := ParsingKeeps(s, o, f);
    case ReadingWrapper(_, _, _) => ReadKeeps(s, o);
    case Filling(f) => o' := FillingKeeps(s, o, f);
    case SecondNode(_, _) => o' := JoinKeeps(s, o);
    case Stopped =>
  }

  /** The environment assumption, on one event. */
  ghost predicate Allowed(s: State, e: Event) {
    e.Arrive? && s.pc.Idle? ==> InTime(s, e.f)
  }

  lemma StepKeeps(s: State, o: Own, e: Event) returns (o': Own)
    requires Inv(s, o) && Cleared(s) && Allowed(s, e)
    ensures Inv(Step(s, e), o') && !Step(s, e).fault
  {
    o' := o;
    match e
    case Arrive(f) =>
      if s.pc.Idle? {
        ArriveKeeps(s, o, f);
      }
    case Process => o' := ProcessKeeps(s, o);
    case Export => o' := ExportKeeps(s, o);
    case Shutdown =>
      if s.pc.Idle? {
        ShutdownKeeps(s, o);
      }
  }

  // ---------------------------------------------------------------- every schedule

  /** The environment assumption: packets arrive in the order of their timestamps, the first not
      before one second, and none near the end of time. */
  ghost predicate WellTimed(schedule: seq<Event>) {
    && (forall i :: 0 <= i < |schedule| && schedule[i].Arrive? ==>
          schedule[i].f.Second() >= 1 && schedule[i].f.Ts() + EXPIRATION_FLOW_TIME < INFINITE_TIME)
    && (forall i, j :: 0 <= i < j < |schedule| && schedule[i].Arrive? && schedule[j].Arrive? ==>
          schedule[i].f.Ts() <= schedule[j].f.Ts())
  }

  /** The clock shows the time of some packet, unless the monitor is closing. */
  ghost predicate ClockFrom(s: State, schedule: seq<Event>) {
    Closing(s) || s.now == 0
    || exists i :: 0 <= i < |schedule| && schedule[i].Arrive? && schedule[i].f.Ts() == s.now
  }

  lemma InsertClock(s: State, f: Frame, x: nat, k: Key)
    ensures InsertFlow(s, f, x, k).now == s.now && |InsertFlow(s, f, x, k).sess| == |s.sess|
  {
  }

  lemma FillingClock(s: State, f: Frame)
    ensures FillingStep(s, f).now == s.now && |FillingStep(s, f).sess| == |s.sess|
  {
    if s.aux.Some? && ParseInto(f, Sess(s, s.aux.value).key).FlowPacket? {
      var k := ParseInto(f, Sess(s, s.aux.value).key).key;
      InsertClock(Filled(s, f, k), f, s.aux.value, k);
    }
  }

  lemma ProcessClock(s: State)
    ensures ProcessStep(s).now == s.now && |ProcessStep(s).sess| == |s.sess|
    ensures Closing(s) ==> Closing(ProcessStep(s))
  {
    match s.pc
    case Idle =>
    case Cleaning(_) =>
    case Parsing(f) =>
    case ReadingWrapper(_, _, _) =>
    case Filling(f) => FillingClock(s, f);
    case SecondNode(_, _) =>
    case Stopped =>
  }

  lemma ExportClock(s: State)
    ensures ExportStep(s).now == s.now && |ExportStep(s).sess| == |s.sess| && ExportStep(s).pc == s.pc
  {
  }

  lemma StepClock(s: State, e: Event)
    ensures |Step(s, e).sess| == |s.sess|
    ensures Closing(s) ==> Closing(Step(s, e))
    ensures Step(s, e).now == s.now || Closing(Step(s, e)) || (e.Arrive? && Step(s, e).now == e.f.Ts())
  {
    match e
    case Arrive(_) =>
    case Process => ProcessClock(s);
    case Export => ExportClock(s);
    case Shutdown =>
  }

  lemma ClockStep(s: State, schedule: seq<Event>, e: Event)
    requires ClockFrom(s, schedule)
    ensures ClockFrom(Step(s, e), schedule + [e])
  {
    StepClock(s, e);
    var all := schedule + [e];
    assert all[|schedule|] == e;
    if !Closing(s) && s.now != 0 {
      var i :| 0 <= i < |schedule| && schedule[i].Arrive? && schedule[i].f.Ts() == s.now;
      assert all[i].Arrive? && all[i].f.Ts() == s.now;
    }
  }

  lemma AllowedNext(s: State, schedule: seq<Event>)
    requires schedule != [] && WellTimed(schedule) && ClockFrom(s, schedule[..|schedule| - 1])
    ensures Allowed(s, schedule[|schedule| - 1])
  {
    var before, e := schedule[..|schedule| - 1], schedule[|schedule| - 1];
    if e.Arrive? && s.pc.Idle? && s.now != 0 {
      var i :| 0 <= i < |before| && before[i].Arrive? && before[i].f.Ts() == s.now;
      assert schedule[i] == before[i];
    }
  }

  function OwnStart(n: nat): Own {
    Own(seq(2 * n, i => NFree), seq(n, i => SFree))
  }

  lemma StartPlaces(n: nat)
    requires n >= 1
    ensures Shapes(Start(n), OwnStart(n))
    ensures NodeLists(Start(n), OwnStart(n)) && SessionLists(Start(n), OwnStart(n))
  {
    var s, o := Start(n), OwnStart(n);
    StartTagged(2 * n, o.node, NFree);
    StartTagged(n, o.sess, SFree);
    assert FreeSessions(s) == Downto(n);
    forall pl: NodePlace
      ensures Tagged(NodesAt(s, pl), o.node, pl)
    {
      assert pl == NFree || NodesAt(s, pl) == [];
    }
  }

  lemma StartBooks(n: nat)
    requires n >= 1
    ensures Books(Start(n)) && Control(Start(n))
  {
    assert Start(n).sessFree + Start(n).sessUsed == Downto(n);
  }

  lemma StartRecords(n: nat)
    ensures Records(Start(n)) == []
  {
    var s := Start(n);
    assert s.expired == [] && s.flags == [] && s.active == [] && s.log == [];
    assert Queue(s) == [] + Reverse<nat>([]) == [];
  }

  lemma NoRecords(s: State)
    requires Records(s) == [] && s.accepted == [] && s.active == []
    ensures Timeline(s)
  {
    forall k
      ensures RecsOf([], k) == Summaries(Segments(PacketsOf([], k)))
    {
      assert PacketsOf([], k) == [] && Segments([]) == [] && Summaries([]) == [];
    }
    assert Sessionized([], []);
    assert Conserved([], []);
    assert Ordered([], 0, s.now);
  }

  lemma StartTimeline(n: nat)
    ensures Timeline(Start(n))
  {
    StartRecords(n);
    NoRecords(Start(n));
  }

  lemma StartBuckets(n: nat)
    ensures Buckets(Start(n))
  {
    forall i | 0 <= i < MAX_FLOW_TABLE_SIZE
      ensures NewestFirst(Start(n), Bucket(Start(n), i))
    {
      assert Bucket(Start(n), i) == [];
    }
  }

  lemma StartCleared(n: nat)
    ensures Cleared(Start(n))
  {
  }

  lemma StartHolds(n: nat) returns (o: Own)
    requires n >= 1
    ensures Inv(Start(n), o)
  {
    o := OwnStart(n);
    StartPlaces(n);
    StartBooks(n);
    StartTimeline(n);
    StartBuckets(n);
  }

  lemma StartTagged<P>(n: nat, place: seq<P>, here: P)
    requires |place| == n && forall i :: 0 <= i < n ==> place[i] == here
    ensures Tagged(Downto(n), place, here)
  {
    forall x | 0 <= x < n
      ensures x in Downto(n)
    {
      assert Downto(n)[n - 1 - x] == x;
    }
  }

  /** After every schedule, whatever the interleaving, the invariant holds. */
  lemma {:induction false} RunHolds(n: nat, schedule: seq<Event>) returns (o: Own)
    requires n >= 1 && WellTimed(schedule)
    ensures Inv(Run(n, schedule), o) && Cleared(Run(n, schedule)) && ClockFrom(Run(n, schedule), schedule)
    ensures |Run(n, schedule).sess| == n
  {
    if schedule == [] {
      o := StartHolds(n);
      StartCleared(n);
    } else {
      var before, e := schedule[..|schedule| - 1], schedule[|schedule| - 1];
      assert schedule == before + [e];
      var o0 := RunHolds(n, before);
      AllowedNext(Run(n, before), schedule);
      o := StepKeeps(Run(n, before), o0, e);
      StepClears(Run(n, before), o0, e);
      StepClock(Run(n, before), e);
      ClockStep(Run(n, before), before, e);
    }
  }
}
