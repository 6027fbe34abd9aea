/** What the monitor promises, over every schedule of packets, process steps and export steps. */
module FlowTheorems {
  import opened FlowTypes
  import opened Frames
  import opened Lists
  import opened FlowState
  import opened FlowInvariant
  import opened FlowFrames
  import opened FlowOpen
  import opened FlowProcess
  import opened FlowCleanup
  import opened FlowExport
  import opened FlowRuns
  import opened Sessionization

  // ---------------------------------------------------------------- the flows are right

  /** The records written, waiting and live are, for every key, the pieces of that key's accepted
      packets between gaps above the limit. */
  lemma FlowsAreTheSplit(n: nat, schedule: seq<Event>, k: Key)
    requires n >= 1 && WellTimed(schedule)
    ensures var s := Run(n, schedule);
      RecsOf(Records(s), k) == Summaries(Segments(PacketsOf(s.accepted, k)))
  {
    var o := RunHolds(n, schedule);
    assert Sessionized(Records(Run(n, schedule)), Run(n, schedule).accepted);
  }

  /** Flows leave the monitor in the order of their last packets, across batches too, and every
      record still waiting or live is no older than those written. */
  lemma ExportIsInOrder(n: nat, schedule: seq<Event>)
    requires n >= 1 && WellTimed(schedule)
    ensures var s := Run(n, schedule);
      && s.log <= Records(s)
      && forall i, j :: 0 <= i < j < |Records(s)| ==> Records(s)[i].last <= Records(s)[j].last
  {
    var o := RunHolds(n, schedule);
  }

  // ---------------------------------------------------------------- nothing is lost or duplicated

  /** Packets and bytes over live, queued and written flows are those accepted. */
  lemma CountersAreConserved(n: nat, schedule: seq<Event>)
    requires n >= 1 && WellTimed(schedule)
    ensures var s := Run(n, schedule);
      && TotalPackets(Records(s)) % U32 == |s.accepted| % U32
      && TotalBytes(Records(s)) % U64 == Bytes(s.accepted) % U64
  {
    var o := RunHolds(n, schedule);
    ConservedMeans(Records(Run(n, schedule)), Run(n, schedule).accepted);
  }

  lemma ConservedMeans(recs: seq<Rec>, ps: seq<Packet>)
    requires Conserved(recs, ps)
    ensures TotalPackets(recs) % U32 == |ps| % U32 && TotalBytes(recs) % U64 == Bytes(ps) % U64
  {
    SameRemainder(TotalPackets(recs), |ps|, U32);
    SameRemainder(TotalBytes(recs), Bytes(ps), U64);
  }

  lemma SameRemainder(a: nat, b: nat, m: nat)
    requires m > 0 && (a - b) % m == 0
    ensures a % m == b % m
  {
    var q := (a - b) / m;
    assert a - b == m * q;
    assert a == m * (q + b / m) + b % m;
    MulBound(m, q + b / m - a / m);
    assert m * (q + b / m - a / m) == a % m - b % m;
  }

  // ---------------------------------------------------------------- who owns what

  datatype SessionPlace = InFreePool | InScratch | InActive | InFlags | InExpired | InExporter

  function SessionsAt(s: State, pl: SessionPlace): seq<nat> {
    match pl
    case InFreePool => FreeSessions(s)
    case InScratch => AuxSessions(s)
    case InActive => SessionsOf(s, s.active)
    case InFlags => SessionsOf(s, s.flags)
    case InExpired => SessionsOf(s, s.expired)
    case InExporter => if s.epc.Popped? || s.epc.Exported? then [SessionOf(s, s.epc.n)] else []
  }

  function SessionsOf(s: State, ns: seq<nat>): (r: seq<nat>)
    ensures |r| == |ns| && forall i :: 0 <= i < |ns| ==> r[i] == SessionOf(s, ns[i])
  {
    seq(|ns|, i requires 0 <= i < |ns| => SessionOf(s, ns[i]))
  }

  /** Every list node is in exactly one place, once. */
  lemma NodesArePartitioned(n: nat, schedule: seq<Event>, x: nat) returns (pl: NodePlace)
    requires n >= 1 && WellTimed(schedule) && x < 2 * n
    ensures var s := Run(n, schedule);
      && x in NodesAt(s, pl)
      && (forall q: NodePlace :: x in NodesAt(s, q) ==> q == pl)
      && (forall q: NodePlace :: NoDup(NodesAt(s, q)))
  {
    var s := Run(n, schedule);
    var o := RunHolds(n, schedule);
    pl := o.node[x];
    forall q: NodePlace
      ensures NoDup(NodesAt(s, q))
      ensures x in NodesAt(s, q) <==> q == pl
    {
      assert Tagged(NodesAt(s, q), o.node, q);
    }
  }

  function PlaceOfHolder(s: State, o: Own, a: nat): SessionPlace
    requires a < |o.node|
  {
    match o.node[a]
    case NActive => InActive
    case NFlags => InFlags
    case NExpired => InExpired
    case _ => InExporter
  }

  lemma HeldPlace(s: State, o: Own, x: nat)
    requires NodeLists(s, o) && Links(s, o) && x < |o.sess| && o.sess[x] == SHeld
    ensures Sess(s, x).activeNode < |o.node|
    ensures x in SessionsAt(s, PlaceOfHolder(s, o, Sess(s, x).activeNode))
  {
    assert SessionLinked(s, o, x);
    var a := Sess(s, x).activeNode;
    PlaceIsListed(s, o, a);
    var ns := NodesAt(s, o.node[a]);
    var i :| 0 <= i < |ns| && ns[i] == a;
    assert SessionsOf(s, ns)[i] == x;
  }

  /** A session listed anywhere but in the pool or as scratch is held, by a node of that place. */
  lemma ListedIsHeld(s: State, o: Own, ns: seq<nat>, here: NodePlace)
    requires Links(s, o) && Tagged(ns, o.node, here)
    requires forall i :: 0 <= i < |ns| ==> Outer(s, o, ns[i])
    ensures forall i :: 0 <= i < |ns| ==>
      var x := SessionsOf(s, ns)[i];
      x < |o.sess| && o.sess[x] == SHeld && Sess(s, x).activeNode == ns[i]
    ensures NoDup(SessionsOf(s, ns))
  {
    forall i | 0 <= i < |ns|
      ensures var x := SessionsOf(s, ns)[i];
        x < |o.sess| && o.sess[x] == SHeld && Sess(s, x).activeNode == ns[i]
    {
      assert OuterLinked(s, o, ns[i]);
    }
  }

  lemma SessionPlaces(s: State, o: Own, pl: SessionPlace)
    requires NodeLists(s, o) && SessionLists(s, o) && Links(s, o)
    ensures NoDup(SessionsAt(s, pl))
    ensures forall x :: x in SessionsAt(s, pl) ==>
      && x < |o.sess|
      && (pl == InFreePool <==> o.sess[x] == SFree)
      && (pl == InScratch <==> o.sess[x] == SAux)
      && (o.sess[x] == SHeld ==>
            Sess(s, x).activeNode < |o.node| && pl == PlaceOfHolder(s, o, Sess(s, x).activeNode))
  {
    match pl
    case InFreePool =>
    case InScratch =>
    case InActive =>
      assert Tagged(NodesAt(s, NActive), o.node, NActive);
      ListedIsHeld(s, o, s.active, NActive);
    case InFlags =>
      assert Tagged(NodesAt(s, NFlags), o.node, NFlags);
      ListedIsHeld(s, o, s.flags, NFlags);
    case InExpired =>
      assert Tagged(NodesAt(s, NExpired), o.node, NExpired);
      ListedIsHeld(s, o, s.expired, NExpired);
    case InExporter =>
      assert Tagged(NodesAt(s, NExporter), o.node, NExporter);
      if s.epc.Popped? || s.epc.Exported? {
        assert HandNodes(s)[0] == s.epc.n;
        ListedIsHeld(s, o, HandNodes(s), NExporter);
        assert SessionsOf(s, HandNodes(s))[0] == SessionOf(s, s.epc.n);
      }
  }

  /** Every session is in exactly one place, once. */
  lemma SessionsArePartitioned(n: nat, schedule: seq<Event>, x: nat) returns (pl: SessionPlace)
    requires n >= 1 && WellTimed(schedule) && x < n
    ensures var s := Run(n, schedule);
      && x in SessionsAt(s, pl)
      && (forall q: SessionPlace :: x in SessionsAt(s, q) ==> q == pl)
      && (forall q: SessionPlace :: NoDup(SessionsAt(s, q)))
  {
    var s := Run(n, schedule);
    var o := RunHolds(n, schedule);
    match o.sess[x] {
      case SFree => pl := InFreePool;
      case SAux => pl := InScratch;
      case SHeld =>
        HeldPlace(s, o, x);
        pl := PlaceOfHolder(s, o, Sess(s, x).activeNode);
    }
    forall q: SessionPlace
      ensures NoDup(SessionsAt(s, q)) && (x in SessionsAt(s, q) ==> q == pl)
    {
      SessionPlaces(s, o, q);
    }
  }

  // ---------------------------------------------------------------- no resource problem

  /** In every interleaving the node pool is large enough, and no step dereferences null, fails an
      assertion, exits, or enters the loop over `n_flags`. */
  lemma PoolsNeverFail(n: nat, schedule: seq<Event>)
    requires n >= 1 && WellTimed(schedule)
    ensures var s := Run(n, schedule);
      !s.fault && s.unprocessedFlows == 0 && |s.sessFree| >= 1
  {
    var o := RunHolds(n, schedule);
  }

  /** The session read after the pool's mutex was dropped is the one that was popped. */
  lemma WrapperStillHolds(n: nat, schedule: seq<Event>)
    requires n >= 1 && WellTimed(schedule) && Run(n, schedule).pc.ReadingWrapper?
    ensures var s := Run(n, schedule);
      Step(s, Process).aux == Some(s.pc.popped)
  {
    var o := RunHolds(n, schedule);
  }

  // ---------------------------------------------------------------- the structures agree

  /** Active nodes, hash nodes and sessions correspond one to one, and each hash node is in the
      bucket of its key. */
  lemma StructuresAgree(n: nat, schedule: seq<Event>)
    requires n >= 1 && WellTimed(schedule)
    ensures var s := Run(n, schedule);
      && (forall a :: a in s.active ==>
            && Data(s, a).ToNode?
            && var h := Data(s, a).n;
            && Data(s, h).ToSession?
            && Sess(s, Data(s, h).s).activeNode == a
            && h in Bucket(s, GetIndex(Sess(s, Data(s, h).s).key)))
      && (forall c, h :: h in Bucket(s, c) ==>
            && Data(s, h).ToSession?
            && var x := Data(s, h).s;
            && GetIndex(Sess(s, x).key) == c
            && Sess(s, x).activeNode in s.active
            && Data(s, Sess(s, x).activeNode) == ToNode(h))
  {
    var s := Run(n, schedule);
    var o := RunHolds(n, schedule);
    forall a | a in s.active
      ensures Data(s, a).ToNode? && Data(s, Data(s, a).n).ToSession?
      ensures Sess(s, SessionOf(s, a)).activeNode == a
      ensures Data(s, a).n in Bucket(s, GetIndex(Sess(s, SessionOf(s, a)).key))
    {
      ActiveAgrees(s, o, a);
    }
    forall c, h | h in Bucket(s, c)
      ensures Data(s, h).ToSession? && GetIndex(Sess(s, Data(s, h).s).key) == c
      ensures Sess(s, Data(s, h).s).activeNode in s.active
      ensures Data(s, Sess(s, Data(s, h).s).activeNode) == ToNode(h)
    {
      BucketAgrees(s, o, c, h);
    }
  }

  lemma ActiveAgrees(s: State, o: Own, a: nat)
    requires NodeLists(s, o) && Links(s, o) && a in s.active
    ensures Data(s, a).ToNode? && Data(s, Data(s, a).n).ToSession?
    ensures Sess(s, SessionOf(s, a)).activeNode == a
    ensures Data(s, a).n in Bucket(s, GetIndex(Sess(s, SessionOf(s, a)).key))
  {
    assert Tagged(NodesAt(s, NActive), o.node, NActive);
    assert OuterLinked(s, o, a);
    PlaceIsListed(s, o, Data(s, a).n);
  }

  lemma BucketAgrees(s: State, o: Own, c: nat, h: nat)
    requires NodeLists(s, o) && Links(s, o) && h in Bucket(s, c)
    ensures Data(s, h).ToSession? && GetIndex(Sess(s, Data(s, h).s).key) == c
    ensures Sess(s, Data(s, h).s).activeNode in s.active
    ensures Data(s, Sess(s, Data(s, h).s).activeNode) == ToNode(h)
  {
    var j :| 0 <= j < |Bucket(s, c)| && Bucket(s, c)[j] == h;
    BucketIsTagged(s, o, c, j);
    assert HashLinked(s, o, h);
    var a := Sess(s, Data(s, h).s).activeNode;
    PlaceIsListed(s, o, a);
    assert OuterLinked(s, o, a);
  }

  // ---------------------------------------------------------------- the search

  ghost predicate Unexpired(s: State, i: int, k: Key) {
    0 <= i < |Records(s)| && Records(s)[i].key == k && s.now - Records(s)[i].last <= EXPIRATION_FLOW_TIME
  }

  /** The first match of `k` in its bucket. */
  function Match(s: State, k: Key): nat {
    FirstMatch(s, Bucket(s, GetIndex(k)), k)
  }

  function Matched(s: State, k: Key): Rec
    requires Match(s, k) < |Bucket(s, GetIndex(k))|
  {
    RecOf(s, Bucket(s, GetIndex(k))[Match(s, k)])
  }

  /** `insertFlow` finds a flow to update. */
  predicate Hit(s: State, k: Key) {
    Match(s, k) < |Bucket(s, GetIndex(k))| && s.now - Matched(s, k).last <= EXPIRATION_FLOW_TIME
  }

  lemma OneUnexpired(s: State, k: Key, i: int, j: int)
    requires Timeline(s) && Unexpired(s, i, k) && Unexpired(s, j, k)
    ensures i == j
  {
    assert Ordered(Records(s), |Records(s)| - |s.active|, s.now);
  }

  lemma HitIsRecorded(s: State, o: Own, k: Key) returns (i: nat)
    requires NodeLists(s, o) && Links(s, o) && Timeline(s) && Hit(s, k)
    ensures Unexpired(s, i, k) && Records(s)[i] == Matched(s, k)
  {
    MatchIsRecorded(s, o, k);
    i := BucketRecord(s, o, GetIndex(k), Match(s, k));
  }

  lemma MissIsExpired(s: State, o: Own, k: Key, i: int)
    requires Shapes(s, o) && NodeLists(s, o) && Links(s, o) && Timeline(s) && Buckets(s) && Clocks(s) && !Closing(s)
    requires !Hit(s, k)
    ensures !Unexpired(s, i, k)
  {
    if Match(s, k) < |Bucket(s, GetIndex(k))| {
      MatchIsRecorded(s, o, k);
    }
    SearchFails(s, o, k);
  }

  /** Searching one bucket for its first match is searching all records for an unexpired one: the two
      succeed together, on the same record, and at most one record of a key is unexpired. */
  lemma SearchIsGlobal(n: nat, schedule: seq<Event>, k: Key)
    requires n >= 1 && WellTimed(schedule) && !Closing(Run(n, schedule))
    ensures var s := Run(n, schedule);
      && (Hit(s, k) <==> exists i :: Unexpired(s, i, k))
      && (forall i :: Hit(s, k) && Unexpired(s, i, k) ==> Records(s)[i] == Matched(s, k))
      && (forall i, i' :: Unexpired(s, i, k) && Unexpired(s, i', k) ==> i == i')
  {
    var s := Run(n, schedule);
    var o := RunHolds(n, schedule);
    forall i, i' | Unexpired(s, i, k) && Unexpired(s, i', k)
      ensures i == i'
    {
      OneUnexpired(s, k, i, i');
    }
    if Hit(s, k) {
      var i := HitIsRecorded(s, o, k);
    } else {
      forall i
        ensures !Unexpired(s, i, k)
      {
        MissIsExpired(s, o, k, i);
      }
    }
  }

  /** The first match is the newest of all records of its key, expired or not. */
  lemma FirstMatchIsNewest(n: nat, schedule: seq<Event>, k: Key, i: nat)
    requires n >= 1 && WellTimed(schedule)
    requires var s := Run(n, schedule); i < |Records(s)| && Records(s)[i].key == k
    requires var s := Run(n, schedule); FirstMatch(s, Bucket(s, GetIndex(k)), k) < |Bucket(s, GetIndex(k))|
    ensures var s := Run(n, schedule);
      Records(s)[i].last <= RecOf(s, Bucket(s, GetIndex(k))[FirstMatch(s, Bucket(s, GetIndex(k)), k)]).last
  {
    var s := Run(n, schedule);
    var o := RunHolds(n, schedule);
    NewestIsFirst(s, o, k, i);
  }

  lemma NewestIsFirst(s: State, o: Own, k: Key, i: nat)
    requires Shapes(s, o) && NodeLists(s, o) && Links(s, o) && Timeline(s) && Buckets(s)
    requires i < |Records(s)| && Records(s)[i].key == k
    requires FirstMatch(s, Bucket(s, GetIndex(k)), k) < |Bucket(s, GetIndex(k))|
    ensures Records(s)[i].last <=
      RecOf(s, Bucket(s, GetIndex(k))[FirstMatch(s, Bucket(s, GetIndex(k)), k)]).last
  {
    var b := Bucket(s, GetIndex(k));
    var j := FirstMatch(s, b, k);
    if i >= |Records(s)| - |s.active| {
      LiveRecord(s, i);
      var h, l := LiveNode(s, o, |Records(s)| - 1 - i);
      assert NewestFirst(s, b);
    } else {
      BucketIsTagged(s, o, GetIndex(k), j);
      assert HashLinked(s, o, b[j]);
      var a := Sess(s, SessionOf(s, b[j])).activeNode;
      PlaceIsListed(s, o, a);
      var m :| 0 <= m < |s.active| && s.active[m] == a;
      assert Records(s)[|s.log| + QueuePos(s, m)] == RecOf(s, b[j]);
    }
  }

  // ---------------------------------------------------------------- the cleanup

  /** When `cleanup_flows` stops at a live flow, the flows off the table are exactly those beyond the
      limit, though it looked only at the tail of the list. */
  lemma CleanupIsExact(n: nat, schedule: seq<Event>)
    requires n >= 1 && WellTimed(schedule)
    requires Run(n, schedule).pc.Cleaning? && !TailExpired(Run(n, schedule))
    ensures var s := Step(Run(n, schedule), Process);
      && s.flags == []
      && forall i :: 0 <= i < |Records(s)| ==>
           (i < |Records(s)| - |s.active| <==> s.now - Records(s)[i].last > EXPIRATION_FLOW_TIME)
  {
    var s := Run(n, schedule);
    var o := RunHolds(n, schedule);
    StopIsExact(s);
    SpliceRecords(s, s.pc.next);
  }

  // ---------------------------------------------------------------- the shutdown

  /** Once the export thread has finished: all buckets are empty, every flow was written exactly
      once, and every list node is back in its pool. */
  lemma FinishedIsClean(n: nat, schedule: seq<Event>, k: Key)
    requires n >= 1 && WellTimed(schedule) && Run(n, schedule).epc == Finished
    ensures var s := Run(n, schedule);
      && Records(s) == s.log
      && RecsOf(s.log, k) == Summaries(Segments(PacketsOf(s.accepted, k)))
      && (forall c :: Bucket(s, c) == [])
      && |s.nodeFree| == 2 * n && NoDup(s.nodeFree)
      && s.nodeUsed == 0
  {
    var s := Run(n, schedule);
    var o := RunHolds(n, schedule);
    assert Queue(s) == [];
    assert Sessionized(Records(s), s.accepted);
    assert Tagged(NodesAt(s, NFree), o.node, NFree);
    forall c: nat
      ensures Bucket(s, c) == []
    {
      if Bucket(s, c) != [] {
        BucketAgrees(s, o, c, Bucket(s, c)[0]);
      }
    }
  }

  /** What is left to do once the shutdown has begun. */
  function Work(s: State): nat {
    (if s.pc.Cleaning? then |s.active| + 1 else 0)
    + 4 * (|s.active| + |s.flags| + |s.expired|)
    + (match s.epc
       case Popped(_) => 4
       case Exported(_, _) => 3
       case SessionReleased(_) => 2
       case Waiting => 1
       case Finished => 0)
  }

  /** Closing always ends: every event either changes nothing or does one unit of the remaining work,
      some thread can always do one until the work is gone, and then the export thread has finished. */
  lemma ClosingAlwaysEnds(n: nat, schedule: seq<Event>, e: Event)
    requires n >= 1 && WellTimed(schedule) && Closing(Run(n, schedule))
    ensures var s := Run(n, schedule);
      && (Step(s, e) == s || Work(Step(s, e)) == Work(s) - 1)
      && (Work(s) > 0 ==> Step(s, Process) != s || Step(s, Export) != s)
      && (Work(s) == 0 <==> s.epc == Finished)
  {
    var s := Run(n, schedule);
    var o := RunHolds(n, schedule);
    ClosingWork(s, o, e);
  }

  lemma ClosingWork(s: State, o: Own, e: Event)
    requires Inv(s, o) && Closing(s)
    ensures Step(s, e) == s || Work(Step(s, e)) == Work(s) - 1
    ensures Work(s) > 0 ==> Step(s, Process) != s || Step(s, Export) != s
    ensures Work(s) == 0 <==> s.epc == Finished
  {
    ProcessWork(s, o);
    ExportWork(s, o);
  }

  lemma ProcessWork(s: State, o: Own)
    requires Inv(s, o) && Closing(s)
    ensures s.pc.Cleaning? ==> Work(ProcessStep(s)) == Work(s) - 1
  {
    if s.pc.Cleaning? {
      if TailExpired(s) {
        ExpireRest(s, o);
      } else {
        SpliceControl(s);
      }
    }
  }

  /** Every turn of the export thread, whatever it stands at, does one unit. */
  lemma ExportTurnWork(s: State)
    requires s.epc.Waiting? || s.epc.Popped? || s.epc.SessionReleased?
    ensures ExportStep(s) == s || Work(ExportStep(s)) == Work(s) - 1
  {
  }

  lemma ExportedWork(s: State)
    requires s.epc.Exported?
    ensures Work(ExportStep(s)) == Work(s) - 1
  {
  }

  lemma ExportMoves(s: State)
    requires s.stopEt && s.epc != Finished
    ensures ExportStep(s).epc != s.epc
  {
  }

  lemma ExportWork(s: State, o: Own)
    requires Inv(s, o)
    ensures ExportStep(s) == s || Work(ExportStep(s)) == Work(s) - 1
    ensures s.pc == Stopped && s.epc != Finished ==> ExportStep(s) != s
    ensures s.epc == Finished ==> Work(s) == 0
  {
    if s.epc.Exported? {
      ExportedWork(s);
    } else if s.epc != Finished {
      ExportTurnWork(s);
    }
    if s.stopEt && s.epc != Finished {
      ExportMoves(s);
    }
  }
}
