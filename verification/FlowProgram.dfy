/** The program as a whole: under any schedule it is the state machine, and run on a trace it writes
    exactly the flows of the trace. */
module FlowProgram {
  import opened FlowTypes
  import opened Frames
  import opened FlowState
  import opened FlowInvariant
  import opened FlowRuns
  import opened FlowTheorems
  import opened FlowCleanup
  import opened FlowMachine
  import opened FlowLinks
  import opened FlowRefinement
  import opened FlowMemory
  import opened FlowMonitor
  import opened FlowIntake
  import opened Sessionization
  import opened Lists

  /** The program `m` has run schedule `es` with pools for `n` sessions. */
  ghost predicate Ran(m: Machine, n: nat, es: seq<Event>, p: Proof) {
    n >= 1 && WellTimed(es) && m == After(n, es) && Holds(m, p) && p.s == Run(n, es)
  }

  lemma RanNothing(n: nat) returns (p: Proof)
    requires n >= 1
    ensures Ran(Boot(n), n, [], p) && Boot(n).pc == Idle && Boot(n).epc == Waiting
  {
    p := BootHolds(n);
    NothingRun(n);
    BootWaits(n);
  }

  lemma NothingRun(n: nat)
    ensures WellTimed([]) && After(n, []) == Boot(n) && Run(n, []) == Start(n)
  {
  }

  lemma BootWaits(n: nat)
    ensures Boot(n).pc == Idle && Boot(n).epc == Waiting
  {
  }

  lemma RanProof(n: nat, es: seq<Event>) returns (p: Proof)
    requires n >= 1 && WellTimed(es)
    ensures Ran(After(n, es), n, es, p)
  {
    p := RunRefines(n, es);
  }

  /** Both threads, in any interleaving of their locked sections: the program is in the state the linked
      structures reach, which represents the state of the state machine. */
  method RunSchedule(n: nat, schedule: seq<Event>) returns (m: Monitor, ghost p: Proof)
    requires n >= 1 && WellTimed(schedule)
    ensures fresh(m) && m.View() == After(n, schedule) && Holds(m.View(), p) && p.s == Run(n, schedule)
  {
    m := new Monitor(n);
    p := RanNothing(n);
    WholeSequence(schedule);
    var i := 0;
    while i < |schedule|
      invariant 0 <= i <= |schedule| && fresh(m) && Ran(m.View(), n, schedule[..i], p)
    {
      TimedTo(schedule, i);
      p := TakeNext(m, n, schedule[..i], schedule[i], p);
      i := i + 1;
    }
  }

  method TakeNext(m: Monitor, ghost n: nat, ghost es: seq<Event>, e: Event, ghost p: Proof) returns (ghost p': Proof)
    requires Ran(m.View(), n, es, p) && WellTimed(es + [e])
    modifies m
    ensures Ran(m.View(), n, es + [e], p')
  {
    NextIsAllowed(n, es, e);
    RunSnoc(n, es, e);
    p' := m.Take(e, p);
  }

  lemma NextIsAllowed(n: nat, es: seq<Event>, e: Event)
    requires n >= 1 && WellTimed(es + [e])
    ensures Allowed(Run(n, es), e)
  {
    assert (es + [e])[..|es|] == es;
    LastIsAllowed(n, es + [e]);
  }

  lemma TimedTo(schedule: seq<Event>, i: nat)
    requires WellTimed(schedule) && i < |schedule|
    ensures WellTimed(schedule[..i + 1]) && schedule[..i + 1] == schedule[..i] + [schedule[i]]
  {
  }

  lemma WholeSequence<T>(s: seq<T>)
    ensures s[..0] == [] && s[..|s|] == s
  {
  }

  lemma RunSnoc(n: nat, es: seq<Event>, e: Event)
    ensures Run(n, es + [e]) == Step(Run(n, es), e) && After(n, es + [e]) == Taking(After(n, es), e)
  {
    assert (es + [e])[..|es|] == es;
  }

  lemma RunNext(n: nat, es: seq<Event>, e: Event, es': seq<Event>)
    requires es' == es + [e]
    ensures Run(n, es') == Step(Run(n, es), e) && After(n, es') == Taking(After(n, es), e)
  {
    RunSnoc(n, es, e);
  }

  // ---------------------------------------------------------------- one thread at a time

  function Repeated(e: Event, k: nat): seq<Event> {
    if k == 0 then [] else Repeated(e, k - 1) + [e]
  }

  lemma {:induction false} RunAlone(n: nat, es: seq<Event>, e: Event, k: nat)
    ensures Alone(After(n, es), e, k) == After(n, es + Repeated(e, k))
  {
    if k == 0 {
      assert es + [] == es;
    } else {
      RunAlone(n, es, e, k - 1);
      RunNext(n, es + Repeated(e, k - 1), e, es + Repeated(e, k));
      AloneNext(After(n, es), e, k - 1);
    }
  }

  lemma {:induction false} TimedRepeated(es: seq<Event>, e: Event, k: nat)
    requires WellTimed(es) && !e.Arrive?
    ensures WellTimed(es + Repeated(e, k))
    decreases k
  {
    if k == 0 {
      assert es + [] == es;
    } else {
      TimedRepeated(es, e, k - 1);
      TimedSnoc(es + Repeated(e, k - 1), e);
      assert es + Repeated(e, k) == es + Repeated(e, k - 1) + [e];
    }
  }

  lemma TimedSnoc(es: seq<Event>, e: Event)
    requires WellTimed(es) && !e.Arrive?
    ensures WellTimed(es + [e])
  {
  }

  /** The frames of a trace, in order of their timestamps. */
  ghost predicate GoodTrace(frames: seq<Frame>) {
    && (forall i :: 0 <= i < |frames| ==>
          frames[i].Second() >= 1 && frames[i].Ts() + EXPIRATION_FLOW_TIME < INFINITE_TIME)
    && (forall i, j :: 0 <= i < j < |frames| ==> frames[i].Ts() <= frames[j].Ts())
  }

  /** The schedule so far is well timed, and its packets are among the first `i` of the trace. */
  ghost predicate Replays(es: seq<Event>, frames: seq<Frame>, i: nat) {
    && i <= |frames| && WellTimed(es)
    && forall j :: 0 <= j < |es| && es[j].Arrive? ==> exists x :: 0 <= x < i && frames[x] == es[j].f
  }

  lemma ReplaysArrive(es: seq<Event>, frames: seq<Frame>, i: nat)
    requires GoodTrace(frames) && Replays(es, frames, i) && i < |frames|
    ensures Replays(es + [Arrive(frames[i])], frames, i + 1)
  {
    var es' := es + [Arrive(frames[i])];
    forall j | 0 <= j < |es'| && es'[j].Arrive?
      ensures exists x :: 0 <= x < i + 1 && frames[x] == es'[j].f
    {
      if j < |es| {
        assert es'[j] == es[j];
        var x :| 0 <= x < i && frames[x] == es[j].f;
        assert x < i + 1 && frames[x] == es'[j].f;
      } else {
        assert frames[i] == es'[j].f;
      }
    }
    forall j | 0 <= j < |es| && es[j].Arrive?
      ensures es[j].f.Ts() <= frames[i].Ts()
    {
      var x :| 0 <= x < i && frames[x] == es[j].f;
    }
  }

  lemma ReplaysAlone(es: seq<Event>, frames: seq<Frame>, i: nat, e: Event, k: nat)
    requires Replays(es, frames, i) && !e.Arrive?
    ensures Replays(es + Repeated(e, k), frames, i)
    decreases k
  {
    TimedRepeated(es, e, k);
    OnlyRepeated(e, k);
    var es' := es + Repeated(e, k);
    forall j | 0 <= j < |es'| && es'[j].Arrive?
      ensures exists x :: 0 <= x < i && frames[x] == es'[j].f
    {
      assert j < |es| && es'[j] == es[j];
    }
  }

  lemma {:induction false} OnlyRepeated(e: Event, k: nat)
    ensures forall j :: 0 <= j < |Repeated(e, k)| ==> Repeated(e, k)[j] == e
  {
    if k > 0 {
      OnlyRepeated(e, k - 1);
    }
  }

  /** The packets of a trace. */
  function Traffic(frames: seq<Frame>): seq<Packet> {
    if frames == [] then [] else Traffic(frames[..|frames| - 1]) + Offered(frames[|frames| - 1])
  }

  lemma IntakeSnoc(n: nat, es: seq<Event>, e: Event)
    ensures Intake(n, es + [e]) == Intake(n, es) + if e.Arrive? && Run(n, es).pc.Idle? then Offered(e.f) else []
  {
    assert (es + [e])[..|es|] == es;
  }

  lemma {:induction false} IntakeAlone(n: nat, es: seq<Event>, e: Event, k: nat)
    requires !e.Arrive?
    ensures Intake(n, es + Repeated(e, k)) == Intake(n, es)
  {
    if k == 0 {
      assert es + [] == es;
    } else {
      IntakeAlone(n, es, e, k - 1);
      assert es + Repeated(e, k) == es + Repeated(e, k - 1) + [e];
      IntakeSnoc(n, es + Repeated(e, k - 1), e);
    }
  }

  // ---------------------------------------------------------------- a trace

  /** One packet of the trace. */
  method TakePacket(m: Monitor, ghost n: nat, frames: seq<Frame>, i: nat, ghost es: seq<Event>, ghost p: Proof)
    returns (ghost es': seq<Event>, ghost p': Proof)
    requires GoodTrace(frames) && i < |frames| && Replays(es, frames, i)
    requires Ran(m.View(), n, es, p) && m.pc == Idle
    modifies m
    ensures Ran(m.View(), n, es', p') && m.pc == Idle && Replays(es', frames, i + 1) && m.epc == old(m.epc)
    ensures Intake(n, es') == Intake(n, es) + Offered(frames[i])
  {
    ghost var started := es + [Arrive(frames[i])];
    ReplaysArrive(es, frames, i);
    ControlOf(m.View(), p);
    NextIsAllowed(n, es, Arrive(frames[i]));
    ghost var k, q := m.ProcessPacket(frames[i], p);
    RunSnoc(n, es, Arrive(frames[i]));
    RunAlone(n, started, Process, k);
    ReplaysAlone(started, frames, i + 1, Process, k);
    es' := started + Repeated(Process, k);
    IntakeSnoc(n, es, Arrive(frames[i]));
    IntakeAlone(n, started, Process, k);
    AloneKeepsExporter(Taking(After(n, es), Arrive(frames[i])), k);
    ArriveKeepsExporter(After(n, es), frames[i]);
    p' := RanProof(n, es');
  }

  lemma {:induction false} AloneKeepsExporter(m: Machine, k: nat)
    ensures Alone(m, Process, k).epc == m.epc
  {
    if k > 0 {
      AloneKeepsExporter(m, k - 1);
      ProcessKeepsExporter(Alone(m, Process, k - 1));
    }
  }

  lemma ProcessKeepsExporter(m: Machine)
    ensures Processing(m).epc == m.epc
  {
  }

  lemma ArriveKeepsExporter(m: Machine, f: Frame)
    ensures Taking(m, Arrive(f)).epc == m.epc
  {
  }

  /** What a finished run has written: for every key the split of the accepted packets at gaps of more
      than 90 seconds; and when no session was missing, those are all packets of the trace. The table and
      the lists are empty. */
  ghost predicate Complete(m: Machine, frames: seq<Frame>) {
    && (forall k {:trigger RecsOf(m.log, k)} :: RecsOf(m.log, k) == Summaries(Segments(PacketsOf(m.accepted, k))))
    && (forall c {:trigger m.table[c]} :: 0 <= c < |m.table| ==> m.table[c] == None)
    && m.active == None && m.flags == None && m.expired == None
    && (m.unprocessedPackets == 0 ==> m.accepted == Traffic(frames))
  }

  lemma FinishedLogIsSplit(n: nat, es: seq<Event>)
    requires n >= 1 && WellTimed(es) && Run(n, es).epc == Finished
    ensures var s := Run(n, es);
      forall k {:trigger RecsOf(s.log, k)} :: RecsOf(s.log, k) == Summaries(Segments(PacketsOf(s.accepted, k)))
  {
    var s := Run(n, es);
    forall k
      ensures RecsOf(s.log, k) == Summaries(Segments(PacketsOf(s.accepted, k)))
    {
      FinishedIsClean(n, es, k);
    }
  }

  /** The heads of the lists are null. */
  lemma FinishedIsUnlinked(n: nat, es: seq<Event>, p: Proof)
    requires Ran(After(n, es), n, es, p) && Run(n, es).epc == Finished
    ensures var m := After(n, es);
      && (forall c {:trigger m.table[c]} :: 0 <= c < |m.table| ==> m.table[c] == None)
      && m.active == None && m.flags == None && m.expired == None
  {
    var m, s := After(n, es), Run(n, es);
    FinishedIsClean(n, es, ZERO_KEY);
    FinishedIsStopped(n, es, p.o);
    NodeRingsMean(m, s);
    forall c | 0 <= c < |m.table|
      ensures m.table[c] == None
    {
      BucketIsShort(m, s, c);
      assert Bucket(s, c) == [];
    }
  }

  lemma FinishedIsStopped(n: nat, es: seq<Event>, o: Own)
    requires Inv(Run(n, es), o) && Run(n, es).epc == Finished
    ensures var s := Run(n, es);
      s.pc == Stopped && s.active == [] && s.flags == [] && s.expired == []
  {
  }

  lemma FinishedIsComplete(n: nat, es: seq<Event>, frames: seq<Frame>, p: Proof)
    requires Ran(After(n, es), n, es, p) && After(n, es).epc == Finished && Intake(n, es) == Traffic(frames)
    ensures Complete(After(n, es), frames)
  {
    var s := Run(n, es);
    ControlOf(After(n, es), p);
    FinishedLogIsSplit(n, es);
    FinishedIsUnlinked(n, es, p);
    FinishedIsStopped(n, es, p.o);
    if s.unprocessedPackets == 0 {
      NothingDropped(n, es);
      assert s.accepted + [] == s.accepted;
    }
  }

  /** The program on a trace: every packet, then the end of the trace (`capturaSenial`), then the drain of
      the export thread. */
  method Capture(n: nat, frames: seq<Frame>) returns (m: Monitor)
    requires n >= 1 && GoodTrace(frames)
    ensures fresh(m) && m.epc == Finished && Complete(m.View(), frames)
  {
    ghost var es, p;
    m, es, p := Replay(n, frames);
    es, p := Close(m, n, es, p);
    es, p := Drain(m, n, es, p);
    FinishedIsComplete(n, es, frames, p);
  }

  method Replay(n: nat, frames: seq<Frame>) returns (m: Monitor, ghost es: seq<Event>, ghost p: Proof)
    requires n >= 1 && GoodTrace(frames)
    ensures fresh(m) && Ran(m.View(), n, es, p) && m.pc == Idle && m.epc == Waiting
    ensures Intake(n, es) == Traffic(frames)
  {
    m := new Monitor(n);
    es := [];
    p := RanNothing(n);
    WholeSequence(frames);
    NothingReplayed(n, frames);
    var i := 0;
    while i < |frames|
      invariant 0 <= i <= |frames| && fresh(m) && Replays(es, frames, i)
      invariant Ran(m.View(), n, es, p) && m.pc == Idle && m.epc == Waiting
      invariant Intake(n, es) == Traffic(frames[..i])
    {
      TrafficNext(frames, i);
      es, p := TakePacket(m, n, frames, i, es, p);
      i := i + 1;
    }
  }

  lemma NothingReplayed(n: nat, frames: seq<Frame>)
    ensures Replays([], frames, 0) && Intake(n, []) == [] == Traffic([])
  {
  }

  lemma TrafficNext(frames: seq<Frame>, i: nat)
    requires i < |frames|
    ensures Traffic(frames[..i + 1]) == Traffic(frames[..i]) + Offered(frames[i])
  {
    assert frames[..i + 1][..i] == frames[..i];
  }

  method Close(m: Monitor, ghost n: nat, ghost es: seq<Event>, ghost p: Proof)
    returns (ghost es': seq<Event>, ghost p': Proof)
    requires Ran(m.View(), n, es, p) && m.pc == Idle
    modifies m
    ensures Ran(m.View(), n, es', p') && m.stopEt && m.epc == old(m.epc)
    ensures Intake(n, es') == Intake(n, es)
  {
    ghost var k, q := m.ResetFlowTable(p);
    es', p' := ShutdownRuns(n, es, k);
    ShutdownKeepsExporter(old(m.View()), k);
  }

  lemma ShutdownRuns(n: nat, es: seq<Event>, k: nat) returns (es': seq<Event>, p': Proof)
    requires n >= 1 && WellTimed(es)
    ensures Ran(Alone(Taking(After(n, es), Shutdown), Process, k), n, es', p')
    ensures Intake(n, es') == Intake(n, es)
  {
    es' := es + [Shutdown] + Repeated(Process, k);
    ShutdownAfter(n, es, k);
    ShutdownIntake(n, es, k);
    p' := RanProof(n, es');
  }

  lemma ShutdownKeepsExporter(m: Machine, k: nat)
    ensures Alone(Taking(m, Shutdown), Process, k).epc == m.epc
  {
    AloneKeepsExporter(Taking(m, Shutdown), k);
  }

  lemma ShutdownAfter(n: nat, es: seq<Event>, k: nat)
    requires n >= 1 && WellTimed(es)
    ensures WellTimed(es + [Shutdown] + Repeated(Process, k))
    ensures After(n, es + [Shutdown] + Repeated(Process, k)) == Alone(Taking(After(n, es), Shutdown), Process, k)
  {
    RunSnoc(n, es, Shutdown);
    TimedSnoc(es, Shutdown);
    RunAlone(n, es + [Shutdown], Process, k);
    TimedRepeated(es + [Shutdown], Process, k);
  }

  lemma ShutdownIntake(n: nat, es: seq<Event>, k: nat)
    requires n >= 1 && WellTimed(es)
    ensures Intake(n, es + [Shutdown] + Repeated(Process, k)) == Intake(n, es)
  {
    IntakeSnoc(n, es, Shutdown);
    IntakeAlone(n, es + [Shutdown], Process, k);
  }

  /** The final drain of `exportThread`. */
  method Drain(m: Monitor, ghost n: nat, ghost es: seq<Event>, ghost p: Proof)
    returns (ghost es': seq<Event>, ghost p': Proof)
    requires Ran(m.View(), n, es, p) && m.stopEt && m.epc == Waiting
    modifies m
    ensures Ran(m.View(), n, es', p') && m.epc == Finished && Intake(n, es') == Intake(n, es)
  {
    es', p' := es, p;
    while m.expired != None
      invariant Intake(n, es') == Intake(n, es)
      invariant Ran(m.View(), n, es', p') && m.stopEt && m.epc == Waiting
      decreases |p'.s.expired|
    {
      es', p' := DrainOne(m, n, es', p');
    }
    es', p' := Finish(m, n, es', p');
  }

  method Finish(m: Monitor, ghost n: nat, ghost es: seq<Event>, ghost p: Proof)
    returns (ghost es': seq<Event>, ghost p': Proof)
    requires Ran(m.View(), n, es, p) && m.stopEt && m.epc == Waiting && m.expired == None
    modifies m
    ensures Ran(m.View(), n, es', p') && m.epc == Finished && Intake(n, es') == Intake(n, es)
  {
    m.PopSection();
    RunSnoc(n, es, Export);
    TimedSnoc(es, Export);
    IntakeSnoc(n, es, Export);
    es' := es + [Export];
    p' := RanProof(n, es');
  }

  method DrainOne(m: Monitor, ghost n: nat, ghost es: seq<Event>, ghost p: Proof)
    returns (ghost es': seq<Event>, ghost p': Proof)
    requires Ran(m.View(), n, es, p) && m.stopEt && m.epc == Waiting && m.expired != None
    modifies m
    ensures Ran(m.View(), n, es', p') && m.stopEt && m.epc == Waiting
    ensures |p'.s.expired| < |p.s.expired| && Intake(n, es') == Intake(n, es)
  {
    p' := m.ExportOne(p);
    es' := FourTurns(n, es);
  }

  /** Four turns of the export thread. */
  lemma FourTurns(n: nat, es: seq<Event>) returns (es': seq<Event>)
    requires n >= 1 && WellTimed(es)
    ensures WellTimed(es') && After(n, es') == Alone(After(n, es), Export, 4) && Intake(n, es') == Intake(n, es)
    ensures Run(n, es') == ExportStep(ExportStep(ExportStep(ExportStep(Run(n, es)))))
  {
    es' := es + Repeated(Export, 4);
    RunAlone(n, es, Export, 4);
    TimedRepeated(es, Export, 4);
    IntakeAlone(n, es, Export, 4);
    var e1, e2, e3 := es + [Export], es + [Export] + [Export], es + [Export] + [Export] + [Export];
    RunSnoc(n, es, Export);
    RunSnoc(n, e1, Export);
    RunSnoc(n, e2, Export);
    RunSnoc(n, e3, Export);
    FourIs(es);
  }

  lemma FourIs(es: seq<Event>)
    ensures es + Repeated(Export, 4) == es + [Export] + [Export] + [Export] + [Export]
  {
    assert Repeated(Export, 1) == [] + [Export];
    assert Repeated(Export, 2) == [] + [Export] + [Export];
    assert Repeated(Export, 3) == [] + [Export] + [Export] + [Export];
  }
}
