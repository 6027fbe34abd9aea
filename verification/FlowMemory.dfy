/** What memory looks like after every schedule: all lists are well-formed circular lists, and they are the
    lists of the state machine. */
module FlowMemory {
  import opened FlowTypes
  import opened Frames
  import opened Lists
  import opened FlowState
  import opened FlowInvariant
  import opened FlowRuns
  import opened FlowCleared
  import opened FlowCleanup
  import opened FlowMachine
  import opened FlowLinks
  import opened FlowRefinement
  import Rings

  /** What a state of the program is known to be: the state it represents, and the certificates. */
  datatype Proof = Proof(s: State, o: Own, wf: seq<nat>, wu: seq<nat>)

  ghost predicate Holds(m: Machine, p: Proof) {
    Inv(p.s, p.o) && FlowInvariant.Cleared(p.s) && Refines(m, p.s, p.wf, p.wu)
  }

  lemma EventHolds(m: Machine, p: Proof, e: Event) returns (p': Proof)
    requires Holds(m, p) && Allowed(p.s, e)
    ensures Holds(Taking(m, e), p') && p'.s == Step(p.s, e)
  {
    var o' := StepKeeps(p.s, p.o, e);
    StepClears(p.s, p.o, e);
    var wf', wu' := StepRefines(m, p.s, p.o, p.wf, p.wu, e);
    p' := Proof(Step(p.s, e), o', wf', wu');
  }

  lemma BootHolds(n: nat) returns (p: Proof)
    requires n >= 1
    ensures Holds(Boot(n), p) && p.s == Start(n)
  {
    var o := StartHolds(n);
    StartCleared(n);
    BootRefines(n);
    p := Proof(Start(n), o, Downto(2 * n), []);
  }

  lemma TimedBefore(schedule: seq<Event>)
    requires schedule != [] && WellTimed(schedule)
    ensures WellTimed(schedule[..|schedule| - 1])
  {
    var before := schedule[..|schedule| - 1];
    assert forall i :: 0 <= i < |before| ==> before[i] == schedule[i];
  }

  lemma LastIsAllowed(n: nat, schedule: seq<Event>)
    requires n >= 1 && WellTimed(schedule) && schedule != []
    ensures Allowed(Run(n, schedule[..|schedule| - 1]), schedule[|schedule| - 1])
  {
    TimedBefore(schedule);
    var o := RunHolds(n, schedule[..|schedule| - 1]);
    AllowedNext(Run(n, schedule[..|schedule| - 1]), schedule);
  }

  /** After every schedule the linked structures represent the state machine's state. */
  lemma {:induction false} RunRefines(n: nat, schedule: seq<Event>) returns (p: Proof)
    requires n >= 1 && WellTimed(schedule)
    ensures Holds(After(n, schedule), p) && p.s == Run(n, schedule)
  {
    if schedule == [] {
      p := BootHolds(n);
    } else {
      TimedBefore(schedule);
      LastIsAllowed(n, schedule);
      var p0 := RunRefines(n, schedule[..|schedule| - 1]);
      p := EventHolds(After(n, schedule[..|schedule| - 1]), p0, schedule[|schedule| - 1]);
    }
  }

  /** Every list over the memory of nodes is a ring. */
  ghost predicate NodeListsAreRings(m: Machine, s: State) {
    && (forall i :: 0 <= i < MAX_FLOW_TABLE_SIZE ==> Rings.Ring(m.links, At(m.table, i, None), Bucket(s, i)))
    && Rings.Ring(m.links, m.active, s.active)
    && Rings.Ring(m.links, m.flags, s.flags)
    && Rings.Ring(m.links, m.expired, s.expired)
  }

  lemma NodeRingsMean(m: Machine, s: State)
    requires NodeRings(m, s)
    ensures NodeListsAreRings(m, s)
  {
    forall i | 0 <= i < MAX_FLOW_TABLE_SIZE
      ensures Rings.Ring(m.links, At(m.table, i, None), Bucket(s, i))
    {
      assert Rings.Ring(m.links, HeadAt(m, NBucket(i)), NodesAt(s, NBucket(i)));
    }
    assert Rings.Ring(m.links, HeadAt(m, NActive), NodesAt(s, NActive));
    assert Rings.Ring(m.links, HeadAt(m, NFlags), NodesAt(s, NFlags));
    assert Rings.Ring(m.links, HeadAt(m, NExpired), NodesAt(s, NExpired));
  }

  /** In every interleaving every list of the program is a well-formed circular list: the buckets, the active
      list and both expired lists over one memory of nodes, the lists of both pools over their wrappers. What
      they hold is what the state machine's lists hold. */
  lemma ListsAreRings(n: nat, schedule: seq<Event>) returns (wf: seq<nat>, wu: seq<nat>)
    requires n >= 1 && WellTimed(schedule)
    ensures var m, s := After(n, schedule), Run(n, schedule);
      && NodeListsAreRings(m, s)
      && Rings.Ring(m.sessions.links, m.sessions.free, s.sessFree)
      && Rings.Ring(m.sessions.links, m.sessions.used, s.sessUsed)
      && Rings.Ring(m.nodes.links, m.nodes.free, wf) && Rings.Ring(m.nodes.links, m.nodes.used, wu)
      && |wf| == |s.nodeFree| && |wu| == s.nodeUsed
      && (forall i :: 0 <= i < |wf| ==> At(m.nodes.data, wf[i], 0) == s.nodeFree[i])
  {
    var p := RunRefines(n, schedule);
    wf, wu := p.wf, p.wu;
    NodeRingsMean(After(n, schedule), Run(n, schedule));
  }

  /** A ring is left where it was entered, after as many steps as it has nodes, in either direction. */
  function Walk(l: Rings.Links, n: nat, k: nat): Ptr {
    if k == 0 then Some(n)
    else match Walk(l, n, k - 1) case None => None case Some(x) => l.Next(x)
  }

  lemma {:induction false} RingIsClosed(l: Rings.Links, list: Ptr, s: seq<nat>, k: nat)
    requires Rings.Ring(l, list, s) && s != [] && k <= |s|
    ensures Walk(l, s[0], k) == Some(if k < |s| then s[k] else s[0])
  {
    if k > 0 {
      RingIsClosed(l, list, s, k - 1);
      assert l.Next(s[k - 1]) == Some(s[Rings.After(|s|, k - 1)]);
    }
  }

  /** The node the cleanup goes on with, read before the tail is unlinked, is the tail afterwards. */
  lemma TailMovesToPrev(m: Machine, p: Proof)
    requires Holds(m, p) && p.s.pc.Cleaning? && TailIsExpired(m)
    ensures var n := Rings.Last(m.links, m.active);
      && n.Some? && Processing(m) == Retiring(m, n.value)
      && Onward(m, n.value) == Rings.Last(Processing(m).links, Processing(m).active)
  {
    var p' := EventHolds(m, p, Process);
    TailAgrees(m, p.s);
    OnwardIsPrev(m, p.s, p.o);
    RetiringMoves(m, p.s, Processing(m), p'.s);
  }

  lemma OnwardIsPrev(m: Machine, s: State, o: Own)
    requires Shapes(s, o) && NodeLists(s, o) && Links(s, o) && NodeRings(m, s) && SameRest(m, s) && s.active != []
    ensures Onward(m, Tail(s)) == if |s.active| > 1 then Some(s.active[|s.active| - 2]) else None
  {
    var h := ExpiringHolds(s, o);
    var i := GetIndex(Sess(s, SessionOf(s, Tail(s))).key);
    SameSession(m, s, Tail(s));
    ListsAreSeparate(s, o);
    FromBucketRings(m, s, i, h);
    var t := s.(table := Put(s.table, i, Unlink(Bucket(s, i), h)));
    assert Rings.Ring(FromBucket(m, i, h).links, HeadAt(FromBucket(m, i, h), NActive), NodesAt(t, NActive));
    Rings.PrevIs(FromBucket(m, i, h).links, m.active, s.active, |s.active| - 1);
  }

  lemma TailIsDropped(s: State)
    requires s.pc.Cleaning? && TailExpired(s) && NoDup(s.active)
    ensures ProcessStep(s).active == s.active[..|s.active| - 1]
  {
    UnlinkLast(s.active);
  }

  lemma RetiringMoves(m: Machine, s: State, m': Machine, s': State)
    requires NodeRings(m, s) && SameRest(m, s) && TailIsExpired(m) && NodeRings(m', s') && SameRest(m', s')
    requires s.pc.Cleaning? && s' == ProcessStep(s)
    ensures Rings.Last(m'.links, m'.active) == if |s.active| > 1 then Some(s.active[|s.active| - 2]) else None
  {
    TailAgrees(m, s);
    TailAgrees(m', s');
    assert Rings.Ring(m.links, HeadAt(m, NActive), NodesAt(s, NActive));
    TailIsDropped(s);
  }
}
