/** Flows leave in time: the cleanup runs in every new second, so no record stays on the table more than a
    second beyond the limit. */
module FlowTimely {
  import opened FlowTypes
  import opened Frames
  import opened Lists
  import opened FlowState
  import opened FlowInvariant
  import opened FlowFrames
  import opened FlowProcess
  import opened FlowInsert
  import opened FlowOpen
  import opened FlowCleanup
  import opened FlowExport
  import opened FlowCleared
  import opened FlowRuns
  import opened Sessionization

  /** At time `t` no record on the table is beyond the limit. */
  ghost predicate NoneOlder(s: State, t: nat) {
    forall i :: |Records(s)| - |s.active| <= i < |Records(s)| ==> t <= Records(s)[i].last + EXPIRATION_FLOW_TIME
  }

  // ---------------------------------------------------------------- what a step does to the live records

  lemma SameLive(s: State, s': State, t: nat)
    requires Records(s') == Records(s) && |s'.active| == |s.active| && NoneOlder(s, t)
    ensures NoneOlder(s', t)
  {
  }

  lemma TouchedLive(s: State, s': State, i: nat, r: Rec, t: nat)
    requires NoneOlder(s, t) && |Records(s)| - |s.active| <= i < |Records(s)|
    requires Records(s') == RemoveAt(Records(s), i) + [r] && |s'.active| == |s.active|
    requires t <= r.last + EXPIRATION_FLOW_TIME
    ensures NoneOlder(s', t)
  {
    forall j | |Records(s')| - |s'.active| <= j < |Records(s')|
      ensures t <= Records(s')[j].last + EXPIRATION_FLOW_TIME
    {
      if j < |Records(s')| - 1 {
        assert Records(s')[j] == Records(s)[if j < i then j else j + 1];
      }
    }
  }

  lemma OpenedLive(s: State, s': State, r: Rec, t: nat)
    requires NoneOlder(s, t) && Records(s') == Records(s) + [r] && |s'.active| == |s.active| + 1
    requires t <= r.last + EXPIRATION_FLOW_TIME
    ensures NoneOlder(s', t)
  {
  }

  lemma QuietLive(s: State, s': State, o: Own, t: nat)
    requires Inv(s, o) && Quiet(s, s', o) && NoneOlder(s, t)
    ensures NoneOlder(s', t)
  {
    QuietRecords(s, s', o);
    SameLive(s, s', t);
  }

  lemma TakeLive(s: State, f: Frame, t: nat)
    requires s.pc == Parsing(f) && f.caplen >= ETH_HLEN && s.aux.None? && |s.sessFree| > 1 && NoneOlder(s, t)
    ensures NoneOlder(ParsingStep(s, f), t)
  {
    var s' := ParsingStep(s, f);
    assert Queue(s') == Queue(s);
    RecsAtFrame(s, s', Queue(s));
    SameLive(s, s', t);
  }

  lemma ParsingLive(s: State, o: Own, f: Frame, t: nat)
    requires Inv(s, o) && s.pc == Parsing(f) && NoneOlder(s, t)
    ensures NoneOlder(ParsingStep(s, f), t)
  {
    if f.caplen >= ETH_HLEN && s.aux.None? && |s.sessFree| > 1 {
      TakeLive(s, f, t);
    } else {
      AuxIsNotHeld(s, o);
      QuietLive(s, ParsingStep(s, f), o, t);
    }
  }

  lemma UpdateLive(s: State, o: Own, k: Key, h: nat, a: nat, x: nat, p: Packet, t: nat)
    requires Inv(s, o) && Updating(s, o, k, h, a, x) && p.key == k && NoneOlder(s, t)
    requires t <= p.ts + EXPIRATION_FLOW_TIME
    ensures NoneOlder(UpdateFlow(s, x, p), t)
  {
    var i := UpdateRecords(s, o, k, h, a, x, p);
    UpdateLength(s, o, x, p, a);
    TouchedLive(s, UpdateFlow(s, x, p), i, Bumped(Records(s)[i], p), t);
  }

  lemma UpdateLength(s: State, o: Own, x: nat, p: Packet, a: nat)
    requires a in s.active && Sess(s, x).activeNode == a
    ensures |UpdateFlow(s, x, p).active| == |s.active|
  {
  }

  lemma FirstLive(s: State, o: Own, f: Frame, x: nat, t: nat)
    requires Inv(s, o) && s.pc == Filling(f) && s.nodeFree != [] && NoneOlder(s, t)
    ensures NoneOlder(FirstNode(s, f, x), t)
  {
    var s', n := FirstNode(s, f, x), s.nodeFree[0];
    assert Tagged(NodesAt(s, NFree), o.node, NFree);
    assert Queue(s') == Queue(s);
    WriteKeepsRecords(s, s', o, n);
    SameLive(s, s', t);
  }

  lemma InsertLive(s: State, o: Own, f: Frame, k: Key, t: nat)
    requires Inv(s, o) && s.pc == Filling(f) && s.aux.Some? && NoneOlder(s, t) && t <= s.now + EXPIRATION_FLOW_TIME
    ensures NoneOlder(InsertFlow(s, f, s.aux.value, k), t)
  {
    var b := Bucket(s, GetIndex(k));
    var i := FirstMatch(s, b, k);
    if i < |b| {
      MatchIsRecorded(s, o, k);
    }
    if i < |b| && Elapsed(s.now, Sess(s, SessionOf(s, b[i])).last) <= EXPIRATION_FLOW_TIME {
      var x := SessionOf(s, b[i]);
      UpdateLive(s, o, k, b[i], Sess(s, x).activeNode, x, Packet(k, s.now, f.len), t);
    } else {
      PoolSuffices(s);
      FirstLive(s, o, f, s.aux.value, t);
    }
  }

  lemma PacketLive(s: State, o: Own, f: Frame, k: Key, t: nat)
    requires Inv(s, o) && s.pc == Filling(f) && s.aux.Some? && NoneOlder(s, t) && t <= s.now + EXPIRATION_FLOW_TIME
    ensures NoneOlder(InsertFlow(Filled(s, f, k), f, s.aux.value, k), t)
  {
    AuxIsNotHeld(s, o);
    QuietLive(s, Filled(s, f, k), o, t);
    FilledKeeps(s, o, f, k);
    InsertLive(Filled(s, f, k), o, f, k, t);
  }

  lemma FillingLive(s: State, o: Own, f: Frame, t: nat)
    requires Inv(s, o) && Cleared(s) && s.pc == Filling(f) && NoneOlder(s, t) && t <= s.now + EXPIRATION_FLOW_TIME
    ensures NoneOlder(FillingStep(s, f), t)
  {
    ParsesAfresh(s, f);
    if Parse(f).FlowPacket? {
      FillingInserts(s, f, Parse(f).key);
      PacketLive(s, o, f, Parse(f).key, t);
    } else {
      QuietLive(s, FillingStep(s, f), o, t);
    }
  }

  lemma JoinLive(s: State, o: Own, t: nat)
    requires Inv(s, o) && s.pc.SecondNode? && NoneOlder(s, t) && t <= s.now + EXPIRATION_FLOW_TIME
    ensures NoneOlder(ProcessStep(s), t)
  {
    PoolSuffices(s);
    JoinPlaces(s, o);
    var p := Packet(Sess(s, s.aux.value).key, s.now, s.pc.f.len);
    JoinRecords(s, o, p);
    OpenedLive(s, Joined(s), Opened(p), t);
  }

  lemma ProcessLive(s: State, o: Own, t: nat)
    requires Inv(s, o) && Cleared(s) && !s.pc.Cleaning? && NoneOlder(s, t) && t <= s.now + EXPIRATION_FLOW_TIME
    ensures NoneOlder(ProcessStep(s), t)
  {
    match s.pc
    case Idle =>
    case Parsing(f) => ParsingLive(s, o, f, t);
    case ReadingWrapper(f, w, _) => QuietLive(s, ReadWrapper(s, f, w), o, t);
    case Filling(f) => FillingLive(s, o, f, t);
    case SecondNode(_, _) => JoinLive(s, o, t);
    case Stopped =>
  }

  lemma FinishedRecords(s: State)
    requires s.epc.Waiting? && s.expired == []
    ensures Records(ExportStep(s)) == Records(s) && ExportStep(s).active == s.active
  {
    assert Queue(ExportStep(s)) == Queue(s);
    RecsAtFrame(s, ExportStep(s), Queue(s));
  }

  lemma ExportRecords(s: State, o: Own)
    requires Inv(s, o)
    ensures Records(ExportStep(s)) == Records(s) && ExportStep(s).active == s.active
  {
    match s.epc
    case Waiting =>
      if s.expired != [] {
        PopRecords(s);
      } else {
        FinishedRecords(s);
      }
    case Popped(_) => WriteRecords(s);
    case Exported(_, _) =>
      ReleaseBooks(s, o);
      ReleaseRecords(s, o);
    case SessionReleased(_) => ReturnRest(s);
    case Finished =>
  }

  lemma ExportLive(s: State, o: Own, t: nat)
    requires Inv(s, o) && NoneOlder(s, t)
    ensures NoneOlder(ExportStep(s), t)
  {
    ExportRecords(s, o);
    SameLive(s, ExportStep(s), t);
  }

  lemma ArriveLive(s: State, o: Own, f: Frame, t: nat)
    requires Inv(s, o) && s.pc.Idle? && InTime(s, f) && NoneOlder(s, t)
    ensures NoneOlder(ArriveStep(s, f), t)
  {
    ArriveControl(s, f);
    QuietLive(s, ArriveStep(s, f), o, t);
  }

  /** Where the scan stops, nothing on the table is beyond the limit. */
  lemma SpliceLive(s: State, o: Own)
    requires Inv(s, o) && s.pc.Cleaning? && !TailExpired(s) && s.now < U64
    ensures NoneOlder(Splice(s, s.pc.next), s.now)
  {
    StopIsExact(s);
    SpliceRecords(s, s.pc.next);
  }

  // ---------------------------------------------------------------- the cleanup runs every second

  /** Nothing on the table was beyond the limit when the second of the clock began. */
  ghost predicate Timely(s: State) {
    s.pc.Cleaning? || Closing(s) ||
    (s.previous == s.now / US_IN_SEC && NoneOlder(s, s.previous * US_IN_SEC))
  }

  lemma ArriveTimely(s: State, o: Own, f: Frame)
    requires Inv(s, o) && s.pc.Idle? && InTime(s, f) && Timely(s)
    ensures Timely(ArriveStep(s, f))
    ensures s.previous != 0 && s.now / US_IN_SEC < f.Second() ==> ArriveStep(s, f).pc == Cleaning(Some(f))
  {
    SecondsMonotone(s.now, f.Ts());
    ArriveLive(s, o, f, s.previous * US_IN_SEC);
  }

  lemma SpliceTimely(s: State, o: Own)
    requires Inv(s, o) && s.pc.Cleaning? && !TailExpired(s)
    ensures Timely(Splice(s, s.pc.next))
    ensures NoneOlder(Splice(s, s.pc.next), s.now)
  {
    SpliceLive(s, o);
  }

  lemma ProcessTimely(s: State, o: Own)
    requires Inv(s, o) && Cleared(s) && Timely(s)
    ensures Timely(ProcessStep(s))
  {
    if s.pc.Cleaning? {
      if !TailExpired(s) {
        SpliceTimely(s, o);
      }
    } else {
      ProcessClock(s);
      ProcessSecond(s);
      if !Closing(s) {
        ProcessLive(s, o, s.previous * US_IN_SEC);
      }
    }
  }

  lemma ProcessSecond(s: State)
    requires !s.pc.Cleaning?
    ensures ProcessStep(s).previous == s.previous
    ensures !ProcessStep(s).pc.Cleaning? && (s.sessFree != [] ==> !ProcessStep(s).pc.Parsing?)
  {
    match s.pc
    case Idle =>
    case Parsing(f) =>
    case ReadingWrapper(_, _, _) =>
    case Filling(f) => FillingSecond(s, f);
    case SecondNode(_, _) =>
    case Stopped =>
  }

  lemma FillingSecond(s: State, f: Frame)
    requires s.pc == Filling(f)
    ensures FillingStep(s, f).previous == s.previous
    ensures !FillingStep(s, f).pc.Cleaning? && !FillingStep(s, f).pc.Parsing?
  {
    if s.aux.Some? && ParseInto(f, Sess(s, s.aux.value).key).FlowPacket? {
      InsertSecond(Filled(s, f, ParseInto(f, Sess(s, s.aux.value).key).key), f, s.aux.value,
                   ParseInto(f, Sess(s, s.aux.value).key).key);
    }
  }

  lemma InsertSecond(s: State, f: Frame, x: nat, k: Key)
    requires s.pc == Filling(f)
    ensures InsertFlow(s, f, x, k).previous == s.previous
    ensures !InsertFlow(s, f, x, k).pc.Cleaning? && !InsertFlow(s, f, x, k).pc.Parsing?
  {
  }

  lemma ExportTimely(s: State, o: Own)
    requires Inv(s, o) && Timely(s)
    ensures Timely(ExportStep(s))
  {
    ExportClock(s);
    if !s.pc.Cleaning? && !Closing(s) {
      ExportLive(s, o, s.previous * US_IN_SEC);
    }
  }

  lemma StepTimely(s: State, o: Own, e: Event)
    requires Inv(s, o) && Cleared(s) && Allowed(s, e) && Timely(s)
    ensures Timely(Step(s, e))
  {
    match e
    case Arrive(f) =>
      if s.pc.Idle? {
        ArriveTimely(s, o, f);
      }
    case Process => ProcessTimely(s, o);
    case Export => ExportTimely(s, o);
    case Shutdown =>
  }

  lemma StartTimely(n: nat)
    ensures Timely(Start(n))
  {
    StartRecords(n);
  }

  lemma {:induction false} RunTimely(n: nat, schedule: seq<Event>)
    requires n >= 1 && WellTimed(schedule)
    ensures Timely(Run(n, schedule))
  {
    if schedule == [] {
      StartTimely(n);
    } else {
      var before, e := schedule[..|schedule| - 1], schedule[|schedule| - 1];
      assert forall i :: 0 <= i < |before| ==> before[i] == schedule[i];
      var o := RunHolds(n, before);
      RunTimely(n, before);
      AllowedNext(Run(n, before), schedule);
      StepTimely(Run(n, before), o, e);
    }
  }

  // ---------------------------------------------------------------- the promises

  /** In every interleaving, whenever the process thread is not cleaning up: no record on the table has
      been idle for a second more than the limit, and what was taken off it is in the export queue. */
  lemma ExpiryIsTimely(n: nat, schedule: seq<Event>, a: nat)
    requires n >= 1 && WellTimed(schedule)
    ensures var s := Run(n, schedule);
      !s.pc.Cleaning? && s.pc != Stopped ==>
        && s.flags == []
        && (a in s.active ==> s.now - RecOf(s, a).last < EXPIRATION_FLOW_TIME + US_IN_SEC)
  {
    var s := Run(n, schedule);
    var o := RunHolds(n, schedule);
    RunTimely(n, schedule);
    if !s.pc.Cleaning? && s.pc != Stopped && a in s.active {
      ActiveAge(s, IndexOf(s.active, a));
    }
  }

  lemma ActiveAge(s: State, m: nat)
    requires m < |s.active| && NoneOlder(s, s.now / US_IN_SEC * US_IN_SEC)
    ensures s.now - RecOf(s, s.active[m]).last < EXPIRATION_FLOW_TIME + US_IN_SEC
  {
    ActiveRecord(s, m);
  }

  lemma ActiveRecord(s: State, m: nat)
    requires m < |s.active|
    ensures |Records(s)| - |s.active| <= |Records(s)| - 1 - m
    ensures Records(s)[|Records(s)| - 1 - m] == RecOf(s, s.active[m])
  {
    LiveRecord(s, |Records(s)| - 1 - m);
  }

  /** Since packet `f` of a new second: the thread cleans up for `f`, or has cleaned up before `f` is
      parsed, or `f` is past the parser. */
  ghost predicate CleansFor(s: State, f: Frame) {
    && (s.pc.Cleaning? ==> s.pc.next == Some(f))
    && (s.pc.Parsing? ==> NoneOlder(s, s.now))
  }

  lemma CleansOn(s: State, o: Own, f: Frame, e: Event)
    requires Inv(s, o) && CleansFor(s, f) && (e.Process? || e.Export?)
    ensures CleansFor(Step(s, e), f)
  {
    if e.Export? {
      ExportClock(s);
      if s.pc.Parsing? {
        ExportLive(s, o, s.now);
      }
    } else if s.pc.Cleaning? {
      if !TailExpired(s) {
        SpliceTimely(s, o);
      }
    } else {
      ProcessSecond(s);
    }
  }

  /** Event `i` is the last arrival. */
  ghost predicate LastArrival(schedule: seq<Event>, i: nat) {
    && i < |schedule| && schedule[i].Arrive?
    && forall j :: i < j < |schedule| ==> schedule[j].Process? || schedule[j].Export?
  }

  /** The packet is taken, and the clock stood in an earlier second. */
  ghost predicate StartsSecond(s: State, f: Frame) {
    s.pc.Idle? && s.now / US_IN_SEC < f.Second()
  }

  lemma ArriveCleans(s: State, o: Own, f: Frame)
    requires Inv(s, o) && StartsSecond(s, f) && InTime(s, f) && Timely(s)
    ensures CleansFor(Step(s, Arrive(f)), f)
  {
    ArriveTimely(s, o, f);
    if s.previous == 0 {
      FirstPacketWipesNothing(s.(now := f.Ts()), f.Second());
    }
  }

  /** The last event is the arrival. */
  lemma ArrivalCleans(n: nat, prior: seq<Event>, schedule: seq<Event>, e: Event)
    requires n >= 1 && WellTimed(prior) && WellTimed(schedule) && schedule == prior + [e] && e.Arrive?
    requires StartsSecond(Run(n, prior), e.f)
    ensures CleansFor(Step(Run(n, prior), e), e.f)
  {
    var o := RunHolds(n, prior);
    assert schedule[..|schedule| - 1] == prior;
    AllowedNext(Run(n, prior), schedule);
    RunTimely(n, prior);
    ArriveCleans(Run(n, prior), o, e.f);
  }

  lemma LaterCleans(n: nat, prior: seq<Event>, e: Event, f: Frame)
    requires n >= 1 && WellTimed(prior) && CleansFor(Run(n, prior), f) && (e.Process? || e.Export?)
    ensures CleansFor(Step(Run(n, prior), e), f)
  {
    var o := RunHolds(n, prior);
    CleansOn(Run(n, prior), o, f, e);
  }

  lemma {:induction false} RunCleansFor(n: nat, schedule: seq<Event>, i: nat)
    requires n >= 1 && WellTimed(schedule) && LastArrival(schedule, i)
    requires StartsSecond(Run(n, schedule[..i]), schedule[i].f)
    ensures CleansFor(Run(n, schedule), schedule[i].f)
    decreases |schedule|
  {
    var prior, e := schedule[..|schedule| - 1], schedule[|schedule| - 1];
    assert forall j :: 0 <= j < |prior| ==> prior[j] == schedule[j];
    assert schedule == prior + [e];
    if i == |schedule| - 1 {
      ArrivalCleans(n, prior, schedule, e);
    } else {
      assert prior[..i] == schedule[..i];
      RunCleansFor(n, prior, i);
      LaterCleans(n, prior, e, schedule[i].f);
    }
  }

  /** The first packet of a second is parsed only after `cleanup_flows`: then no record on the table is
      beyond the limit at all. */
  lemma NewSecondCleansUp(n: nat, schedule: seq<Event>, i: nat, a: nat)
    requires n >= 1 && WellTimed(schedule) && LastArrival(schedule, i)
    requires StartsSecond(Run(n, schedule[..i]), schedule[i].f)
    ensures var s := Run(n, schedule);
      s.pc.Parsing? && a in s.active ==> s.now - RecOf(s, a).last <= EXPIRATION_FLOW_TIME
  {
    var s := Run(n, schedule);
    RunCleansFor(n, schedule, i);
    if s.pc.Parsing? && a in s.active {
      ActiveRecord(s, IndexOf(s.active, a));
    }
  }

  // ---------------------------------------------------------------- the first packet, and late ones

  /** The first packet sets the clock of seconds and is parsed without a cleanup. */
  lemma FirstPacketSetsClock(n: nat, f: Frame)
    ensures var u := Step(Start(n), Arrive(f));
      u.pc == Parsing(f) && u.previous == f.Second() && u.previous2 == 0 && u.now == f.Ts()
  {
  }

  /** A packet of an earlier second starts no cleanup and moves no flow. Unless it is as old as the second
      before the last, the clock of seconds goes back to that one, so that the next packet `g`, at whatever
      idle state `t` with these clocks, is taken for one of a new second if it is later than that. */
  lemma LatePacketRollsBack(s: State, f: Frame, t: State, g: Frame)
    requires s.pc.Idle? && f.Second() < s.previous
    requires t.pc.Idle? && t.previous == Step(s, Arrive(f)).previous && t.previous != 0
    ensures var u := Step(s, Arrive(f));
      u.pc == Parsing(f) && u.active == s.active && u.table == s.table && u.expired == s.expired && u.flags == s.flags
    ensures Step(t, Arrive(g)).pc == Cleaning(Some(g)) <==>
            if s.previous2 < f.Second() then s.previous2 < g.Second() else s.previous < g.Second()
  {
  }
}
