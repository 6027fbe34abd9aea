/** What becomes of every frame: it enters a flow, is ignored, is counted as malformed, or is dropped
    because all sessions but one are in use; no frame is dropped otherwise. */
module FlowDrops {
  import opened FlowTypes
  import opened Frames
  import opened FlowState
  import opened FlowInvariant
  import opened FlowRuns
  import opened FlowCleared
  import opened FlowTheorems
  import opened FlowIntake
  import opened Sessionization
  import opened Lists

  /** The sessions that flows hold: live, expired and waiting, or in the hand of the export thread. */
  function SessionsHeld(s: State): nat {
    |s.active| + |s.flags| + |s.expired| + (if s.epc.Popped? || s.epc.Exported? then 1 else 0)
  }

  /** A frame with an Ethernet header comes up, there is no scratch session, and of `n` sessions only one
      is not held by a flow. */
  predicate DropsFrame(n: nat, s: State, e: Event) {
    e == Process && s.pc.Parsing? && s.pc.f.caplen >= ETH_HLEN && s.aux == None && SessionsHeld(s) == n - 1
  }

  // ---------------------------------------------------------------- the counter of dropped packets

  lemma ParsingDrops(n: nat, s: State, f: Frame)
    requires Counts(s) && |s.sess| == n && s.pc == Parsing(f)
    ensures ParsingStep(s, f).unprocessedPackets ==
      s.unprocessedPackets + if DropsFrame(n, s, Process) then 1 else 0
  {
  }

  lemma ProcessDrops(n: nat, s: State, o: Own)
    requires Inv(s, o) && Cleared(s) && |s.sess| == n
    ensures ProcessStep(s).unprocessedPackets ==
      s.unprocessedPackets + if DropsFrame(n, s, Process) then 1 else 0
  {
    match s.pc
    case Idle =>
    case Cleaning(_) =>
      CleaningHolds(s);
    case Parsing(f) =>
      ParsingDrops(n, s, f);
    case ReadingWrapper(_, _, _) =>
    case Filling(_) =>
      FillingDrops(s, o);
    case SecondNode(_, _) =>
    case Stopped =>
  }

  lemma FillingDrops(s: State, o: Own)
    requires Inv(s, o) && Cleared(s) && s.pc.Filling?
    ensures ProcessStep(s).unprocessedPackets == s.unprocessedPackets
  {
    var o' := ProcessKeeps(s, o);
    FillingHolds(s);
  }

  /** The counter of unprocessed packets moves exactly when a session is wanted and all but one are held. */
  lemma StepDrops(n: nat, s: State, o: Own, e: Event)
    requires Inv(s, o) && Cleared(s) && |s.sess| == n
    ensures Step(s, e).unprocessedPackets == s.unprocessedPackets + if DropsFrame(n, s, e) then 1 else 0
  {
    match e
    case Arrive(f) =>
    case Process => ProcessDrops(n, s, o);
    case Export => ExportHolds(s);
    case Shutdown =>
  }

  /** How often that happened. */
  function Drops(n: nat, schedule: seq<Event>): nat {
    if schedule == [] then 0
    else
      var before, e := schedule[..|schedule| - 1], schedule[|schedule| - 1];
      Drops(n, before) + if DropsFrame(n, Run(n, before), e) then 1 else 0
  }

  lemma RunBefore(n: nat, schedule: seq<Event>) returns (o: Own)
    requires n >= 1 && WellTimed(schedule) && schedule != []
    ensures var before, e := schedule[..|schedule| - 1], schedule[|schedule| - 1];
      && WellTimed(before) && Inv(Run(n, before), o) && Cleared(Run(n, before)) && |Run(n, before).sess| == n
      && Allowed(Run(n, before), e)
  {
    var before := schedule[..|schedule| - 1];
    assert forall i :: 0 <= i < |before| ==> before[i] == schedule[i];
    o := RunHolds(n, before);
    AllowedNext(Run(n, before), schedule);
  }

  lemma {:induction false} DropsAreCounted(n: nat, schedule: seq<Event>)
    requires n >= 1 && WellTimed(schedule)
    ensures Run(n, schedule).unprocessedPackets == Drops(n, schedule)
  {
    if schedule != [] {
      var before, e := schedule[..|schedule| - 1], schedule[|schedule| - 1];
      var o := RunBefore(n, schedule);
      DropsAreCounted(n, before);
      StepDrops(n, Run(n, before), o, e);
    }
  }

  /** Flows never hold all sessions but one. */
  ghost predicate AlwaysRoom(n: nat, schedule: seq<Event>) {
    forall i :: 0 <= i <= |schedule| ==> SessionsHeld(Run(n, schedule[..i])) < n - 1
  }

  lemma {:induction false} RoomThenNoDrops(n: nat, schedule: seq<Event>)
    requires AlwaysRoom(n, schedule)
    ensures Drops(n, schedule) == 0
  {
    if schedule != [] {
      var before := schedule[..|schedule| - 1];
      forall i | 0 <= i <= |before|
        ensures SessionsHeld(Run(n, before[..i])) < n - 1
      {
        assert before[..i] == schedule[..i];
      }
      RoomThenNoDrops(n, before);
      assert before[..|before|] == before;
    }
  }

  /** So while there is room, nothing is missing: what was accepted, with the packet in work, is all that
      came in. */
  lemma NothingDroppedWithRoom(n: nat, schedule: seq<Event>)
    requires n >= 1 && WellTimed(schedule) && AlwaysRoom(n, schedule)
    ensures Run(n, schedule).unprocessedPackets == 0
    ensures Run(n, schedule).accepted + InWork(Run(n, schedule).pc) == Intake(n, schedule)
  {
    DropsAreCounted(n, schedule);
    RoomThenNoDrops(n, schedule);
    NothingDropped(n, schedule);
  }

  // ---------------------------------------------------------------- every frame is accounted for

  /** The frame the process thread is working on. */
  function WorkFrames(pc: ProcPc): seq<Frame> {
    match pc
    case Idle => []
    case Cleaning(next) => if next.Some? && next.value.caplen >= ETH_HLEN then [next.value] else []
    case Parsing(f) => if f.caplen >= ETH_HLEN then [f] else []
    case ReadingWrapper(f, _, _) => [f]
    case Filling(f) => [f]
    case SecondNode(f, _) => [f]
    case Stopped => []
  }

  /** The frames with an Ethernet header that arrived, */
  function Arrived(n: nat, schedule: seq<Event>): seq<Frame> {
    if schedule == [] then []
    else
      var before, e := schedule[..|schedule| - 1], schedule[|schedule| - 1];
      Arrived(n, before) +
      if e.Arrive? && Run(n, before).pc.Idle? && e.f.caplen >= ETH_HLEN then [e.f] else []
  }

  /** and those of them that were not dropped: a dropped frame is the last that arrived. */
  function TakenNext(n: nat, s: State, taken: seq<Frame>, e: Event): seq<Frame> {
    if e.Arrive? && s.pc.Idle? && e.f.caplen >= ETH_HLEN then taken + [e.f]
    else if DropsFrame(n, s, e) && taken != [] then taken[..|taken| - 1]
    else taken
  }

  function Taken(n: nat, schedule: seq<Event>): seq<Frame> {
    if schedule == [] then []
    else
      var before := schedule[..|schedule| - 1];
      TakenNext(n, Run(n, before), Taken(n, before), schedule[|schedule| - 1])
  }

  function PacketsIn(fs: seq<Frame>): seq<Packet> {
    if fs == [] then [] else PacketsIn(fs[..|fs| - 1]) + Parsed(fs[|fs| - 1])
  }

  function MalformedIn(fs: seq<Frame>): nat {
    if fs == [] then 0 else MalformedIn(fs[..|fs| - 1]) + if Parse(fs[|fs| - 1]) == Malformed then 1 else 0
  }

  /** The frames dealt with are `done`: their packets are the accepted ones, their malformed ones counted. */
  ghost predicate Accounted(s: State, done: seq<Frame>) {
    s.accepted == PacketsIn(done) && s.malformed == MalformedIn(done)
  }

  /** The thread is still on the same frame. */
  ghost predicate StaysOn(s: State, s': State) {
    WorkFrames(s'.pc) == WorkFrames(s.pc) && s'.accepted == s.accepted && s'.malformed == s.malformed
  }

  /** The thread has dealt with frame `f`. */
  ghost predicate DealsWith(s: State, s': State, f: Frame) {
    && WorkFrames(s.pc) == [f] && WorkFrames(s'.pc) == []
    && s'.accepted == s.accepted + Parsed(f)
    && s'.malformed == s.malformed + if Parse(f) == Malformed then 1 else 0
  }

  /** The thread has given up the frame it was to parse. */
  ghost predicate GivesUp(s: State, s': State) {
    && |WorkFrames(s.pc)| == 1 && WorkFrames(s'.pc) == []
    && s'.accepted == s.accepted && s'.malformed == s.malformed
  }

  lemma ParsingMoves(n: nat, s: State, o: Own)
    requires Inv(s, o) && |s.sess| == n && s.pc.Parsing?
    ensures if DropsFrame(n, s, Process) then GivesUp(s, ProcessStep(s)) else StaysOn(s, ProcessStep(s))
  {
  }

  lemma InsertMoves(s: State, f: Frame, x: nat, k: Key)
    requires s.pc == Filling(f) && s.now == f.Ts() && Parse(f) == FlowPacket(k) && !InsertFlow(s, f, x, k).fault
    requires InsertFlow(s, f, x, k).unprocessedFlows == 0
    ensures StaysOn(s, InsertFlow(s, f, x, k)) || DealsWith(s, InsertFlow(s, f, x, k), f)
  {
  }

  lemma NoFault(s: State, o: Own)
    requires Inv(s, o) && Cleared(s)
    ensures !ProcessStep(s).fault && ProcessStep(s).unprocessedFlows == 0
  {
    var o' := ProcessKeeps(s, o);
  }

  lemma FillingMoves(s: State, f: Frame)
    requires Control(s) && Cleared(s) && s.pc == Filling(f)
    requires !FillingStep(s, f).fault && FillingStep(s, f).unprocessedFlows == 0
    ensures StaysOn(s, FillingStep(s, f)) || DealsWith(s, FillingStep(s, f), f)
  {
    ParsesAfresh(s, f);
    if Parse(f).FlowPacket? {
      var x, k := s.aux.value, Parse(f).key;
      var t := s.(sess := Put(s.sess, x, Session(k, s.now, s.now, 1, f.len, Sess(s, x).activeNode)));
      assert FillingStep(s, f) == InsertFlow(t, f, x, k);
      InsertMoves(t, f, x, k);
    }
  }

  lemma SecondNodeMoves(s: State)
    requires Control(s) && s.pc.SecondNode?
    requires !ProcessStep(s).fault && ProcessStep(s).unprocessedFlows == 0
    ensures DealsWith(s, ProcessStep(s), s.pc.f)
  {
  }

  lemma PassesOn(s: State)
    requires s.pc.Idle? || s.pc.Cleaning? || s.pc.ReadingWrapper? || s.pc.Stopped?
    ensures StaysOn(s, ProcessStep(s))
  {
  }

  lemma ProcessMoves(n: nat, s: State, o: Own)
    requires Inv(s, o) && Cleared(s) && |s.sess| == n
    ensures DropsFrame(n, s, Process) ==> GivesUp(s, ProcessStep(s))
    ensures !DropsFrame(n, s, Process) ==>
      StaysOn(s, ProcessStep(s)) || exists f :: DealsWith(s, ProcessStep(s), f)
  {
    NoFault(s, o);
    match s.pc
    case Parsing(_) => ParsingMoves(n, s, o);
    case Filling(f) => FillingMoves(s, f);
    case SecondNode(_, _) => SecondNodeMoves(s);
    case _ => PassesOn(s);
  }

  lemma ExportMovesNothing(s: State)
    ensures StaysOn(s, ExportStep(s))
  {
  }

  lemma ArriveMoves(s: State, f: Frame)
    requires s.pc.Idle?
    ensures var s' := ArriveStep(s, f);
      && WorkFrames(s'.pc) == (if f.caplen >= ETH_HLEN then [f] else [])
      && s'.accepted == s.accepted && s'.malformed == s.malformed
  {
  }

  lemma Snoc(done: seq<Frame>, f: Frame)
    ensures PacketsIn(done + [f]) == PacketsIn(done) + Parsed(f)
    ensures MalformedIn(done + [f]) == MalformedIn(done) + if Parse(f) == Malformed then 1 else 0
  {
    assert (done + [f])[..|done|] == done;
  }

  /** The frames taken are those dealt with, and the one at hand. */
  ghost predicate TakenAre(s: State, taken: seq<Frame>, done: seq<Frame>) {
    taken == done + WorkFrames(s.pc) && Accounted(s, done)
  }

  lemma ProcessAccounts(n: nat, s: State, o: Own, taken: seq<Frame>, done: seq<Frame>) returns (done': seq<Frame>)
    requires Inv(s, o) && Cleared(s) && |s.sess| == n && TakenAre(s, taken, done)
    ensures TakenAre(ProcessStep(s), TakenNext(n, s, taken, Process), done')
  {
    done' := done;
    ProcessMoves(n, s, o);
    if DropsFrame(n, s, Process) {
      assert taken[..|taken| - 1] == done == done + [];
    } else if !StaysOn(s, ProcessStep(s)) {
      var f :| DealsWith(s, ProcessStep(s), f);
      Snoc(done, f);
      done' := done + [f];
      assert taken == done' == done' + [];
    }
  }

  lemma StepAccounts(n: nat, s: State, o: Own, e: Event, taken: seq<Frame>, done: seq<Frame>)
    returns (done': seq<Frame>)
    requires Inv(s, o) && Cleared(s) && |s.sess| == n && TakenAre(s, taken, done)
    ensures TakenAre(Step(s, e), TakenNext(n, s, taken, e), done')
  {
    done' := done;
    match e
    case Arrive(f) =>
      if s.pc.Idle? {
        ArriveMoves(s, f);
        assert done + [] == done;
      }
    case Process => done' := ProcessAccounts(n, s, o, taken, done);
    case Export => ExportMovesNothing(s);
    case Shutdown =>
  }

  /** In every interleaving: the accepted packets are exactly those of the frames taken, in order, and the
      malformed frames among them are those counted; a frame was left out for each packet counted as
      unprocessed. */
  lemma {:induction false} EveryFrameIsAccountedFor(n: nat, schedule: seq<Event>) returns (done: seq<Frame>)
    requires n >= 1 && WellTimed(schedule)
    ensures var s := Run(n, schedule);
      && Taken(n, schedule) == done + WorkFrames(s.pc)
      && s.accepted == PacketsIn(done) && s.malformed == MalformedIn(done)
    ensures |Arrived(n, schedule)| == |Taken(n, schedule)| + Drops(n, schedule)
  {
    if schedule == [] {
      done := [];
    } else {
      var before, e := schedule[..|schedule| - 1], schedule[|schedule| - 1];
      var o := RunBefore(n, schedule);
      var done0 := EveryFrameIsAccountedFor(n, before);
      done := StepAccounts(n, Run(n, before), o, e, Taken(n, before), done0);
    }
  }
}
