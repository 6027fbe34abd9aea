/** Which packets enter flows: those of the schedule that parse to a flow, in order, except those for
    which no session was left. */
module FlowIntake {
  import opened FlowTypes
  import opened Frames
  import opened FlowState
  import opened FlowInvariant
  import opened FlowRuns
  import opened FlowCleared
  import opened FlowTheorems
  import opened Sessionization
  import opened Lists

  /** The packet a frame is counted as, if it parses to one. */
  function Parsed(f: Frame): seq<Packet> {
    match Parse(f)
    case Ignored => []
    case Malformed => []
    case FlowPacket(k) => [Packet(k, f.Ts(), f.len)]
  }

  /** `process_packet` does not look at frames shorter than an Ethernet header. */
  function Offered(f: Frame): seq<Packet> {
    if f.caplen >= ETH_HLEN then Parsed(f) else []
  }

  /** The packets of the frames that the process thread took, over a whole run. */
  function Intake(n: nat, schedule: seq<Event>): seq<Packet> {
    if schedule == [] then []
    else
      var before, e := schedule[..|schedule| - 1], schedule[|schedule| - 1];
      Intake(n, before) + if e.Arrive? && Run(n, before).pc.Idle? then Offered(e.f) else []
  }

  /** The packet the process thread is working on. */
  function InWork(pc: ProcPc): seq<Packet> {
    match pc
    case Idle => []
    case Cleaning(next) => if next.Some? then Offered(next.value) else []
    case Parsing(f) => Offered(f)
    case ReadingWrapper(f, _, _) => Parsed(f)
    case Filling(f) => Parsed(f)
    case SecondNode(f, _) => Parsed(f)
    case Stopped => []
  }

  /** `a` is `b` without at most `d` of its packets. */
  ghost predicate Kept(a: seq<Packet>, b: seq<Packet>, d: nat)
    decreases |b|
  {
    if b == [] then a == []
    else
      var b', x := b[..|b| - 1], b[|b| - 1];
      || (a != [] && a[|a| - 1] == x && Kept(a[..|a| - 1], b', d))
      || (d > 0 && Kept(a, b', d - 1))
  }

  lemma {:induction false} KeptAll(a: seq<Packet>, b: seq<Packet>)
    requires Kept(a, b, 0)
    ensures a == b
    decreases |b|
  {
    if b != [] {
      KeptAll(a[..|a| - 1], b[..|b| - 1]);
    }
  }

  lemma {:induction false} KeptMore(a: seq<Packet>, b: seq<Packet>, d: nat)
    requires Kept(a, b, d)
    ensures Kept(a, b, d + 1)
    decreases |b|
  {
    if b != [] {
      var b' := b[..|b| - 1];
      if a != [] && a[|a| - 1] == b[|b| - 1] && Kept(a[..|a| - 1], b', d) {
        KeptMore(a[..|a| - 1], b', d);
      } else {
        KeptMore(a, b', d - 1);
      }
    }
  }

  lemma KeptSnoc(a: seq<Packet>, b: seq<Packet>, d: nat, p: Packet)
    requires Kept(a, b, d)
    ensures Kept(a + [p], b + [p], d)
  {
    assert (a + [p])[..|a|] == a && (b + [p])[..|b|] == b;
  }

  /** One more packet may be missing. */
  lemma {:induction false} KeptWithout(a: seq<Packet>, p: Packet, b: seq<Packet>, d: nat)
    requires Kept(a + [p], b, d)
    ensures Kept(a, b, d + 1)
    decreases |b|
  {
    var ap := a + [p];
    var b' := b[..|b| - 1];
    assert ap[..|ap| - 1] == a;
    if ap[|ap| - 1] == b[|b| - 1] && Kept(a, b', d) {
    } else {
      KeptWithout(a, p, b', d - 1);
    }
  }

  // ---------------------------------------------------------------- one step

  /** Accepted and in work, as far as the run has come. */
  function Held(s: State): seq<Packet> {
    s.accepted + InWork(s.pc)
  }

  lemma CleaningHolds(s: State)
    requires s.pc.Cleaning?
    ensures Held(ProcessStep(s)) == Held(s) && ProcessStep(s).unprocessedPackets == s.unprocessedPackets
  {
  }

  lemma ParsingHolds(s: State)
    requires s.pc.Parsing?
    ensures ProcessStep(s).unprocessedPackets == s.unprocessedPackets ==>
      s.fault || ProcessStep(s).fault || Held(ProcessStep(s)) == Held(s)
    ensures ProcessStep(s).unprocessedPackets != s.unprocessedPackets ==>
      ProcessStep(s).unprocessedPackets == s.unprocessedPackets + 1 && Held(ProcessStep(s)) == s.accepted
  {
  }

  lemma FillingHolds(s: State)
    requires s.pc.Filling? && s.now == s.pc.f.Ts() && Cleared(s) && !ProcessStep(s).fault
    requires ProcessStep(s).unprocessedFlows == 0
    ensures Held(ProcessStep(s)) == Held(s) && ProcessStep(s).unprocessedPackets == s.unprocessedPackets
  {
    var f := s.pc.f;
    ParsesAfresh(s, f);
    if Parse(f).FlowPacket? {
      var k := Parse(f).key;
      var x := s.aux.value;
      var t := s.(sess := Put(s.sess, x, Session(k, s.now, s.now, 1, f.len, Sess(s, x).activeNode)));
      InsertHolds(t, f, s.aux.value, k);
    }
  }

  lemma InsertHolds(s: State, f: Frame, x: nat, k: Key)
    requires s.now == f.Ts() && Parse(f) == FlowPacket(k) && !InsertFlow(s, f, x, k).fault
    requires InsertFlow(s, f, x, k).unprocessedFlows == 0
    ensures Held(InsertFlow(s, f, x, k)) == s.accepted + Parsed(f)
    ensures InsertFlow(s, f, x, k).unprocessedPackets == s.unprocessedPackets
  {
  }

  lemma SecondNodeHolds(s: State)
    requires s.pc.SecondNode? && Control(s) && !ProcessStep(s).fault && ProcessStep(s).unprocessedFlows == 0
    ensures Held(ProcessStep(s)) == Held(s) && ProcessStep(s).unprocessedPackets == s.unprocessedPackets
  {
  }

  /** The process thread passes packets on, or drops the one at hand for want of a session. */
  lemma ProcessHolds(s: State, b: seq<Packet>)
    requires Control(s) && Cleared(s) && !ProcessStep(s).fault && ProcessStep(s).unprocessedFlows == 0
    requires Kept(Held(s), b, s.unprocessedPackets)
    ensures Kept(Held(ProcessStep(s)), b, ProcessStep(s).unprocessedPackets)
  {
    match s.pc
    case Idle =>
    case Cleaning(_) =>
      CleaningHolds(s);
    case Parsing(f) =>
      ParsingHolds(s);
      Dropped(s, b);
    case ReadingWrapper(_, _, _) =>
    case Filling(_) =>
      FillingHolds(s);
    case SecondNode(_, _) =>
      SecondNodeHolds(s);
    case Stopped =>
  }

  lemma Dropped(s: State, b: seq<Packet>)
    requires s.pc.Parsing? && Kept(Held(s), b, s.unprocessedPackets)
    ensures Kept(s.accepted, b, s.unprocessedPackets + 1)
  {
    if InWork(s.pc) == [] {
      assert Held(s) == s.accepted;
      KeptMore(s.accepted, b, s.unprocessedPackets);
    } else {
      KeptWithout(s.accepted, InWork(s.pc)[0], b, s.unprocessedPackets);
    }
  }

  lemma ExportHolds(s: State)
    ensures Held(ExportStep(s)) == Held(s) && ExportStep(s).unprocessedPackets == s.unprocessedPackets
  {
  }

  lemma ArriveHolds(s: State, f: Frame)
    requires s.pc.Idle?
    ensures Held(Step(s, Arrive(f))) == Held(s) + Offered(f)
    ensures Step(s, Arrive(f)).unprocessedPackets == s.unprocessedPackets
  {
    assert s.accepted + [] == s.accepted;
  }

  lemma KeptOffered(a: seq<Packet>, b: seq<Packet>, d: nat, f: Frame)
    requires Kept(a, b, d)
    ensures Kept(a + Offered(f), b + Offered(f), d)
  {
    if Offered(f) == [] {
      assert a + [] == a && b + [] == b;
    } else {
      KeptSnoc(a, b, d, Offered(f)[0]);
    }
  }

  lemma StepHolds(s: State, e: Event, b: seq<Packet>)
    requires Control(s) && Cleared(s) && !Step(s, e).fault && Step(s, e).unprocessedFlows == 0
    requires Kept(Held(s), b, s.unprocessedPackets)
    ensures Kept(Held(Step(s, e)), b + (if e.Arrive? && s.pc.Idle? then Offered(e.f) else []),
                 Step(s, e).unprocessedPackets)
  {
    assert b + [] == b;
    match e
    case Arrive(f) =>
      if s.pc.Idle? {
        ArriveHolds(s, f);
        KeptOffered(Held(s), b, s.unprocessedPackets, f);
      }
    case Process =>
      ProcessHolds(s, b);
    case Export =>
      ExportHolds(s);
    case Shutdown =>
  }

  // ---------------------------------------------------------------- the whole run

  /** After every schedule: what was accepted, with the packet in work, is what came in, in order, with
      at most `unprocessed_packets` packets missing. */
  lemma {:induction false} AcceptedIsIntake(n: nat, schedule: seq<Event>)
    requires n >= 1 && WellTimed(schedule)
    ensures var s := Run(n, schedule);
      Kept(s.accepted + InWork(s.pc), Intake(n, schedule), s.unprocessedPackets)
  {
    if schedule != [] {
      var before, e := schedule[..|schedule| - 1], schedule[|schedule| - 1];
      assert forall i :: 0 <= i < |before| ==> before[i] == schedule[i];
      AcceptedIsIntake(n, before);
      var o := RunHolds(n, before);
      var o' := RunHolds(n, schedule);
      StepHolds(Run(n, before), e, Intake(n, before));
    }
  }

  /** When no session was missing, the flows are made of exactly the packets that came in. */
  lemma NothingDropped(n: nat, schedule: seq<Event>)
    requires n >= 1 && WellTimed(schedule) && Run(n, schedule).unprocessedPackets == 0
    ensures var s := Run(n, schedule);
      s.accepted + InWork(s.pc) == Intake(n, schedule)
  {
    AcceptedIsIntake(n, schedule);
    KeptAll(Run(n, schedule).accepted + InWork(Run(n, schedule).pc), Intake(n, schedule));
  }

  /** Then the records of each key, written, queued and live, are the split of that key's traffic at gaps
      of more than 90 seconds. */
  lemma FlowsAreTheTraffic(n: nat, schedule: seq<Event>, k: Key)
    requires n >= 1 && WellTimed(schedule)
    requires Run(n, schedule).unprocessedPackets == 0 && InWork(Run(n, schedule).pc) == []
    ensures RecsOf(Records(Run(n, schedule)), k) == Summaries(Segments(PacketsOf(Intake(n, schedule), k)))
  {
    NothingDropped(n, schedule);
    assert Run(n, schedule).accepted + [] == Run(n, schedule).accepted;
    FlowsAreTheSplit(n, schedule, k);
  }
}
