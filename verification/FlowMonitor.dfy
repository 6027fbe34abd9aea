/** The monitor in the form of the program: globals, node memory and list heads updated in place. Every
    locked section is a method that does what the step on the linked structures says; the functions of the
    program run a thread through its sections. */
module FlowMonitor {
  import opened FlowTypes
  import opened Frames
  import opened FlowState
  import opened FlowMachine
  import opened FlowMemory
  import opened FlowInvariant
  import opened FlowRuns
  import opened FlowCleanup
  import opened FlowLinks
  import opened FlowRefinement
  import opened FrameParser
  import opened Lists
  import Rings

  // ---------------------------------------------------------------- one thread alone

  /** One thread alone: `k` steps of it. */
  function Alone(m: Machine, e: Event, k: nat): Machine {
    if k == 0 then m else Taking(Alone(m, e, k - 1), e)
  }

  lemma AloneNext(m: Machine, e: Event, k: nat)
    ensures Alone(m, e, k + 1) == Taking(Alone(m, e, k), e)
  {
  }

  // ---------------------------------------------------------------- where each section leads

  /** The process thread ends its packet, or goes on with it. */
  ghost predicate Ends(s: State) {
    s.pc == Idle || s.fault
  }

  lemma ArriveLeads(m: Machine, f: Frame)
    ensures Arriving(m, f).pc == Parsing(f) || Arriving(m, f).pc == Cleaning(Some(f))
  {
  }

  lemma ShutdownLeads(m: Machine)
    requires m.pc.Idle?
    ensures Taking(m, Shutdown).pc == Cleaning(None)
  {
  }

  /** What a proof says of the control state. */
  lemma ControlOf(m: Machine, p: Proof)
    requires Holds(m, p)
    ensures m.pc == p.s.pc && m.epc == p.s.epc && m.stopEt == p.s.stopEt && m.log == p.s.log && !p.s.fault
    ensures p.s.node == m.node && NodeRings(m, p.s)
  {
  }

  lemma ParsingLeads(s: State)
    requires s.pc.Parsing?
    ensures var t := ProcessStep(s); Ends(t) || t.pc.ReadingWrapper? || t.pc.Filling?
  {
  }

  lemma FillingLeads(s: State)
    requires s.pc.Filling?
    ensures Ends(ProcessStep(s)) || ProcessStep(s).pc.SecondNode?
  {
  }

  lemma SecondNodeLeads(s: State)
    requires s.pc.SecondNode?
    ensures Ends(ProcessStep(s))
  {
  }

  /** Four steps of the export thread: pop, write, release the session, release the node. */
  lemma ExportTurn(s: State)
    requires s.epc.Waiting? && s.expired != []
    ensures var t := ExportStep(ExportStep(ExportStep(ExportStep(s))));
      && t.epc == Waiting && t.expired == s.expired[1..] && t.pc == s.pc && t.stopEt == s.stopEt
      && t.log == s.log + [RecOf(s, s.expired[0])]
  {
    var n, s1 := s.expired[0], ExportStep(s);
    assert s1.epc == Popped(n) && RecOf(s1, n) == RecOf(s, n);
    var s2 := ExportStep(s1);
    assert s2.epc == Exported(n, Target(Data(s, n)));
    var s3 := ExportStep(s2);
    assert s3.epc == SessionReleased(n);
  }

  lemma QueueIsHeaded(m: Machine, s: State)
    requires NodeRings(m, s)
    ensures m.expired == None <==> s.expired == []
  {
    assert Rings.Ring(m.links, HeadAt(m, NExpired), NodesAt(s, NExpired));
  }

  /** The order of the assignments in `updateFlowTable`. */
  lemma RefreshingIs(m: Machine, x: nat, p: Packet, v: Session)
    requires var u := At(m.sess, x, NO_SESSION);
      v == u.(last := p.ts, npack := (u.npack + 1) % U32, nbytes := (u.nbytes + p.len) % U64)
    ensures Refreshing(m, x, p) ==
      ToActive(FromActive(m.(sess := Put(m.sess, x, v)), v.activeNode), v.activeNode).(
        accepted := m.accepted + [p], pc := Idle)
  {
  }

  lemma CleaningLeads(s: State)
    requires s.pc.Cleaning?
    ensures TailExpired(s) ==> ProcessStep(s).pc == s.pc && |ProcessStep(s).active| < |s.active|
    ensures !TailExpired(s) ==>
      ProcessStep(s).pc == (if s.pc.next.Some? then Parsing(s.pc.next.value) else Stopped)
    ensures !TailExpired(s) && s.pc.next.None? ==> ProcessStep(s).stopEt
  {
  }

  class Monitor {
    var now: nat
    var previous: nat
    var previous2: nat
    /** What the pooled nodes carry, and their `prev` and `next`. */
    var node: seq<Payload>
    var links: Rings.Links
    var sess: seq<Session>
    /** `flow_table` and the heads of the lists. */
    var table: seq<Ptr>
    var active: Ptr
    var flags: Ptr
    var expired: Ptr
    var aux: Option<nat>
    var nodes: Pool
    var sessions: Pool
    var pc: ProcPc
    var epc: ExportPc
    var stopEt: bool
    var malformed: nat
    var unprocessedPackets: nat
    var unprocessedFlows: nat
    var fault: bool
    ghost var accepted: seq<Packet>
    /** The records written to the flow file. */
    var log: seq<Rec>

    ghost function View(): Machine
      reads this
    {
      Machine(now, previous, previous2, node, links, sess, table, active, flags, expired, aux, nodes, sessions,
              pc, epc, stopEt, malformed, unprocessedPackets, unprocessedFlows, fault, accepted, log)
    }

    // -------------------------------------------------------------- start

    /** `main` up to the start of the threads: the pools are filled by prepending. */
    constructor (n: nat)
      ensures View() == Boot(n)
    {
      now, previous, previous2 := 0, 0, 0;
      node := seq(2 * n, i => NoData);
      links := NoLinks(2 * n);
      sess := seq(n, i => NO_SESSION);
      table := NoTable();
      active, flags, expired, aux := None, None, None, None;
      pc, epc, stopEt := Idle, Waiting, false;
      malformed, unprocessedPackets, unprocessedFlows, fault := 0, 0, 0, false;
      accepted, log := [], [];
      nodes, sessions := FillPool(0, 0), FillPool(0, 0);
      new;
      nodes := AllocPool(2 * n);
      sessions := AllocPool(n);
    }

    /** The loop of `allocNodelPool` and of `allocIPSessionPool`. */
    static method AllocPool(n: nat) returns (p: Pool)
      ensures p == FillPool(n, n)
    {
      p := Pool(NoLinks(n), seq(n, i => i), None, None);
      var i := 0;
      while i < n
        invariant 0 <= i <= n && p == FillPool(n, i)
      {
        var r := Rings.Prepend(p.links, p.free, i);
        p := p.(links := r.0, free := r.1);
        i := i + 1;
      }
    }

    // -------------------------------------------------------------- the process thread: arrival

    /** `initData`. */
    method InitData(second: nat)
      modifies this
      ensures View() == InitMachine(old(View()), second)
    {
      previous2 := previous;
      previous := second;
      active := None;
      expired := None;
      flags := None;
      table := NoTable();
      aux := None;
    }

    /** Entering `cleanup_flows`. */
    method StartCleanup(next: Option<Frame>)
      modifies this`pc, this`fault
      ensures View() == BeginCleanup(old(View()), next)
    {
      pc := Cleaning(next);
      if flags != None {
        fault := true;
      }
    }

    /** `process_packet` up to `perSecOps` or `parsePacket`. */
    method ArriveSection(f: Frame)
      modifies this
      ensures View() == Arriving(old(View()), f)
    {
      now := f.Ts();
      if previous == 0 {
        InitData(f.Second());
      }
      if previous < f.Second() {
        StartCleanup(Some(f));
      } else {
        if previous != f.Second() && previous2 < f.Second() {
          previous := previous2;
        }
        pc := Parsing(f);
      }
    }

    // -------------------------------------------------------------- cleanup

    /** The test of the loop in `cleanup_flows` on node `n`. */
    method IsExpired(n: Ptr) returns (b: bool)
      requires n == Rings.Last(links, active)
      ensures b == TailIsExpired(View())
    {
      if n == None {
        return false;
      }
      var v := At(sess, SessionAt(node, n.value), NO_SESSION);
      return Elapsed(now, v.last) > EXPIRATION_FLOW_TIME;
    }

    /** `releaseNodel`. */
    method ReleaseNodel(n: nat)
      modifies this`nodes, this`fault
      ensures View() == GiveNode(old(View()), n)
    {
      var err, p := ReleaseTo(nodes, n);
      if err {
        fault := true;
      } else {
        nodes := p;
      }
    }

    /** The common part of `releaseNodel` and `releaseIPSession`. */
    static method ReleaseTo(p: Pool, x: nat) returns (err: bool, r: Pool)
      ensures err == (Give(p, x) == None) && (!err ==> Give(p, x) == Some(r))
    {
      r := p;
      if r.used == None {
        return true, r;
      }
      var w := r.used.value;
      var popped := Rings.PopFirst(r.links, r.used);
      r := r.(links := popped.0, used := popped.1);
      r := r.(data := Put(r.data, w, x));
      var appended := Rings.Append(r.links, r.free, w);
      r := r.(links := appended.0, free := appended.1);
      return false, r;
    }

    /** One turn of the first loop of `cleanup_flows`; the node to go on with is read before `n` is unlinked. */
    method ExpireSection(n: nat) returns (next: Ptr)
      modifies this
      ensures View() == Retiring(old(View()), n) && next == Onward(old(View()), n)
    {
      var tableNode := Target(At(node, n, NoData));
      var index := GetIndex(At(sess, SessionAt(node, n), NO_SESSION).key);
      UnlinkFromTable(index, tableNode);
      node := Put(node, n, At(node, tableNode, NoData));
      ReleaseNodel(tableNode);
      next := Rings.PrevNode(links, active, n);
      UnlinkFromActive(n);
      AppendToFlags(n);
    }

    /** `list_unlink` on a bucket. */
    method UnlinkFromTable(index: nat, n: nat)
      modifies this`links, this`table
      ensures View() == FromBucket(old(View()), index, n)
    {
      var r := Rings.Remove(links, At(table, index, None), n);
      links := r.0;
      table := Put(table, index, r.1);
    }

    /** `list_unlink` on the active list. */
    method UnlinkFromActive(n: nat)
      modifies this`links, this`active
      ensures View() == FromActive(old(View()), n)
    {
      var r := Rings.Remove(links, active, n);
      links, active := r.0, r.1;
    }

    /** `list_append_node` on the expired flags. */
    method AppendToFlags(n: nat)
      modifies this`links, this`flags
      ensures View() == ToFlags(old(View()), n)
    {
      var r := Rings.Append(links, flags, n);
      links, flags := r.0, r.1;
    }

    /** The splice under `sem_expired_list`, and the return to `perSecOps` or to the signal handler. */
    method SpliceSection(next: Option<Frame>)
      modifies this
      ensures View() == Splicing(old(View()), next)
    {
      SpliceLists();
      match next
      case Some(f) =>
        previous2 := previous;
        previous := f.Second();
        pc := Parsing(f);
      case None =>
        stopEt := true;
        pc := Stopped;
    }

    method SpliceLists()
      modifies this`links, this`expired, this`flags
      ensures View() == SpliceFlags(old(View()))
    {
      if flags != None {
        var r := Rings.Splice(links, expired, flags);
        links, expired := r.0, r.1;
      }
      flags := None;
    }

    // -------------------------------------------------------------- parsing

    /** The start of `parsePacket`. */
    method ParsingSection(f: Frame)
      modifies this
      ensures View() == StartParsing(old(View()), f)
    {
      if f.caplen < ETH_HLEN {
        pc := Idle;
      } else if aux == None {
        GetIPSession(f);
      } else {
        ClearIncoming(aux.value);
        pc := Filling(f);
      }
    }

    /** `memset(&session->incoming, 0, ...)`. */
    method ClearIncoming(x: nat)
      modifies this`sess
      ensures View() == ClearSession(old(View()), x)
    {
      var v := At(sess, x, NO_SESSION);
      sess := Put(sess, x, v.(key := ZERO_KEY, npack := 0, nbytes := 0));
    }

    /** The common part of `getNodel` and `getIPSession`: the last free wrapper stays in the pool. */
    static method GetFrom(p: Pool) returns (err: int, w: nat, r: Pool)
      ensures match FlowMachine.Take(p)
        case Crash => err == -2
        case LastKept(q) => err == -1 && r == q
        case Got(v, q) => err == 0 && w == v && r == q
    {
      r := p;
      if r.free == None {
        return -2, 0, r;
      }
      w := r.free.value;
      var popped := Rings.PopFirst(r.links, r.free);
      r := r.(links := popped.0, free := popped.1);
      if r.free == None {
        var back := Rings.Append(r.links, r.free, w);
        r := r.(links := back.0, free := back.1);
        return -1, w, r;
      }
      var appended := Rings.Append(r.links, r.used, w);
      r := r.(links := appended.0, used := appended.1);
      return 0, w, r;
    }

    /** `getIPSession` up to its unlock. */
    method GetIPSession(f: Frame)
      requires aux == None && f.caplen >= ETH_HLEN
      modifies this
      ensures View() == StartParsing(old(View()), f)
    {
      var err, w, p := GetFrom(sessions);
      if err == -2 {
        fault := true;
      } else if err == -1 {
        sessions := p;
        unprocessedPackets := unprocessedPackets + 1;
        pc := Idle;
      } else {
        sessions := p;
        pc := ReadingWrapper(f, w, At(p.data, w, 0));
      }
    }

    /** `return n->data`. */
    method ReadingSection(f: Frame, w: nat)
      modifies this
      ensures View() == Reading(old(View()), f, w)
    {
      aux := Some(At(sessions.data, w, 0));
      pc := Filling(f);
    }

    /** `list_search` with `compareTupleFlow` on a circular list. */
    method Search(list: Ptr, k: Key, ghost b: seq<nat>) returns (n: Ptr)
      requires Rings.Ring(links, list, b) && |b| <= |node|
      ensures n == FlowMachine.Search(View(), list, list, k, |node|)
    {
      n := list;
      ghost var i := 0;
      while n != None
        invariant 0 <= i <= |b| && n == if i < |b| then Some(b[i]) else None
        invariant FlowMachine.Search(View(), list, list, k, |node|)
                  == FlowMachine.Search(View(), list, n, k, |node| - i)
        decreases |b| - i
      {
        if CompareTupleFlow(At(sess, SessionAt(node, n.value), NO_SESSION).key, k) == 0 {
          return;
        }
        Rings.NextIs(links, list, b, i);
        n := Rings.NextNode(links, list, n.value);
        i := i + 1;
      }
    }

    /** The rest of `parsePacket`, and `processL4Flow`, writing into the flow of the scratch session. */
    method FillingSection(f: Frame, ghost s: State)
      requires NodeRings(View(), s) && s.node == node
      modifies this
      ensures View() == FillingIn(old(View()), f)
    {
      if aux == None {
        fault := true;
        return;
      }
      var flow := new IPFlow(At(sess, aux.value, NO_SESSION).key);
      var r, headers := FrameParser.ParsePacket(f, flow);
      match r
      case Ignored =>
        pc := Idle;
      case Malformed =>
        malformed := malformed + 1;
        pc := Idle;
      case FlowPacket(_) =>
        Fill(aux.value, flow.CurrentKey(), f.len);
        InsertFlow(f, aux.value, flow.CurrentKey(), s);
    }

    method Fill(x: nat, k: Key, len: uint32)
      modifies this`sess
      ensures View() == FillSession(old(View()), x, k, len)
    {
      var v := At(sess, x, NO_SESSION);
      v := v.(key := k, npack := 1, nbytes := len);
      v := v.(first := now);
      v := v.(last := now);
      sess := Put(sess, x, v);
    }

    // -------------------------------------------------------------- insertFlow

    /** `insertFlow`. */
    method InsertFlow(f: Frame, x: nat, k: Key, ghost s: State)
      requires NodeRings(View(), s) && s.node == node
      modifies this
      ensures View() == Inserting(old(View()), f, x, k)
    {
      var list := At(table, GetIndex(k), None);
      BucketIsShort(View(), s, GetIndex(k));
      var found := Search(list, k, Bucket(s, GetIndex(k)));
      if found == None {
        InsertFlowTable(f, x);
        return;
      }
      var current := SessionAt(node, found.value);
      if Elapsed(now, At(sess, current, NO_SESSION).last) > EXPIRATION_FLOW_TIME {
        InsertFlowTable(f, x);
      } else {
        UpdateFlowTable(current, Packet(k, now, f.len));
      }
    }

    /** `updateFlowTable`: count the packet and move the flow's active node to the front. */
    method UpdateFlowTable(x: nat, p: Packet)
      modifies this
      ensures View() == Refreshing(old(View()), x, p)
    {
      var v := At(sess, x, NO_SESSION);
      v := v.(nbytes := (v.nbytes + p.len) % U64);
      v := v.(last := p.ts);
      v := v.(npack := (v.npack + 1) % U32);
      RefreshingIs(View(), x, p, v);
      StoreSession(x, v);
      UnlinkFromActive(v.activeNode);
      PrependToActive(v.activeNode);
      Accept(p);
    }

    method StoreSession(x: nat, v: Session)
      modifies this`sess
      ensures View() == old(View()).(sess := Put(old(sess), x, v))
    {
      sess := Put(sess, x, v);
    }

    /** The packet is in a flow, and the thread is done with it. */
    method Accept(p: Packet)
      modifies this`accepted, this`pc
      ensures View() == old(View()).(accepted := old(accepted) + [p], pc := Idle)
    {
      accepted := accepted + [p];
      pc := Idle;
    }

    /** `list_prepend_node` on the active list. */
    method PrependToActive(n: nat)
      modifies this`links, this`active
      ensures View() == ToActive(old(View()), n)
    {
      var r := Rings.Prepend(links, active, n);
      links, active := r.0, r.1;
    }

    /** `list_prepend_node` on a bucket, and the new head stored. */
    method PrependToTable(index: nat, n: nat)
      modifies this`links, this`table
      ensures View() == ToBucket(old(View()), index, n)
    {
      var r := Rings.Prepend(links, At(table, index, None), n);
      links := r.0;
      table := Put(table, index, r.1);
    }

    /** `getNodel`: the last free node stays in the pool. */
    method GetNodel() returns (err: int, n: nat)
      modifies this`nodes
      ensures match FlowMachine.Take(old(nodes))
        case Crash => err == -2 && View() == old(View())
        case LastKept(p) => err == -1 && View() == old(View()).(nodes := p)
        case Got(w, p) => err == 0 && n == At(p.data, w, 0) && View() == old(View()).(nodes := p)
    {
      var w, p;
      err, w, p := GetFrom(nodes);
      n := 0;
      if err != -2 {
        nodes := p;
        n := At(nodes.data, w, 0);
      }
    }

    /** No node was left for the flow. */
    method GiveUp()
      modifies this`unprocessedFlows, this`pc
      ensures View() == old(View()).(unprocessedFlows := old(unprocessedFlows) + 1, pc := Idle)
    {
      unprocessedFlows := unprocessedFlows + 1;
      pc := Idle;
    }

    /** `insertFlowTable` up to the first `getNodel`. */
    method InsertFlowTable(f: Frame, x: nat)
      modifies this
      ensures View() == Opening(old(View()), f, x)
    {
      var err, naux := GetNodel();
      if err == -2 {
        fault := true;
      } else if err == -1 {
        GiveUp();
      } else {
        AwaitSecond(f, x, naux);
      }
    }

    method AwaitSecond(f: Frame, x: nat, naux: nat)
      modifies this`node, this`pc
      ensures View() == old(View()).(node := Put(old(node), naux, ToSession(x)), pc := SecondNode(f, naux))
    {
      node := Put(node, naux, ToSession(x));
      pc := SecondNode(f, naux);
    }

    /** `insertFlowTable` from the second `getNodel` on. */
    method SecondNodeSection(f: Frame, naux: nat)
      modifies this
      ensures View() == Linking(old(View()), f, naux)
    {
      if aux == None {
        fault := true;
        return;
      }
      var x := aux.value;
      var err, a := GetNodel();
      if err == -2 {
        fault := true;
      } else if err == -1 {
        GiveBackFirst(naux);
      } else {
        LinkNew(f, x, naux, a);
      }
    }

    method GiveBackFirst(naux: nat)
      modifies this
      ensures View() ==
        GiveNode(old(View()).(unprocessedFlows := old(unprocessedFlows) + 1, pc := Idle), naux)
    {
      GiveUp();
      ReleaseNodel(naux);
    }

    /** The new flow: its table node at the head of its bucket, its active node at the head of the active
        list, each session and node knowing the other. */
    method LinkNew(f: Frame, x: nat, naux: nat, a: nat)
      modifies this
      ensures View() == LinkFlow(old(View()), f, x, naux, a)
    {
      var v := At(sess, x, NO_SESSION);
      StoreNode(a, ToNode(naux));
      PrependToTable(GetIndex(v.key), naux);
      PrependToActive(a);
      StoreSession(x, v.(activeNode := a));
      aux := None;
      Accept(Packet(v.key, now, f.len));
    }

    method StoreNode(n: nat, data: Payload)
      modifies this`node
      ensures View() == old(View()).(node := Put(old(node), n, data))
    {
      node := Put(node, n, data);
    }

    // -------------------------------------------------------------- the export thread

    /** Pop under `sem_expired_list`, or see that it is time to stop. */
    method PopSection()
      modifies this
      ensures View() == Popping(old(View()))
    {
      if expired != None {
        epc := Popped(expired.value);
        var r := Rings.PopFirst(links, expired);
        links, expired := r.0, r.1;
      } else if stopEt {
        epc := Finished;
      }
    }

    /** `export_data`: the record is written. */
    method WriteSection(n: nat)
      modifies this
      ensures View() == Writing(old(View()), n)
    {
      var v := At(sess, SessionAt(node, n), NO_SESSION);
      log := log + [Rec(v.key, v.first, v.last, v.npack, v.nbytes)];
      epc := Exported(n, Target(At(node, n, NoData)));
    }

    /** `releaseIPSession`. */
    method ReleaseSessionSection(n: nat, x: nat)
      modifies this
      ensures View() == Releasing(old(View()), n, x)
    {
      var err, p := ReleaseTo(sessions, x);
      if err {
        fault := true;
      } else {
        ClearIncoming(x);
        sessions := p;
      }
      epc := SessionReleased(n);
    }

    method ReleaseNodeSection(n: nat)
      modifies this
      ensures View() == GiveNode(old(View()), n).(epc := Waiting)
    {
      ReleaseNodel(n);
      epc := Waiting;
    }

    // -------------------------------------------------------------- one event

    method Process(ghost s: State)
      requires NodeRings(View(), s) && s.node == node
      modifies this
      ensures View() == Processing(old(View()))
    {
      match pc
      case Idle =>
      case Cleaning(next) =>
        var n := Rings.Last(links, active);
        var expire := IsExpired(n);
        if expire {
          n := ExpireSection(n.value);
        } else {
          SpliceSection(next);
        }
      case Parsing(f) =>
        ParsingSection(f);
      case ReadingWrapper(f, w, _) =>
        ReadingSection(f, w);
      case Filling(f) =>
        FillingSection(f, s);
      case SecondNode(f, naux) =>
        SecondNodeSection(f, naux);
      case Stopped =>
    }

    method Export()
      modifies this
      ensures View() == Exporting(old(View()))
    {
      match epc
      case Waiting =>
        PopSection();
      case Popped(n) =>
        WriteSection(n);
      case Exported(n, x) =>
        ReleaseSessionSection(n, x);
      case SessionReleased(n) =>
        ReleaseNodeSection(n);
      case Finished =>
    }

    /** The signal handler, once the process thread was joined: `reset_flow_table`. */
    method ShutdownSection()
      modifies this
      ensures View() == BeginCleanup(old(View()).(now := INFINITE_TIME), None)
    {
      now := INFINITE_TIME;
      StartCleanup(None);
    }

    /** One event, in any state the program can be in. */
    method Take(e: Event, ghost p: Proof) returns (ghost p': Proof)
      requires Holds(View(), p) && Allowed(p.s, e)
      modifies this
      ensures View() == Taking(old(View()), e) && Holds(View(), p') && p'.s == Step(p.s, e)
    {
      p' := EventHolds(View(), p, e);
      match e
      case Arrive(f) =>
        if pc == Idle {
          ArriveSection(f);
        }
      case Process =>
        Process(p.s);
      case Export =>
        Export();
      case Shutdown =>
        if pc == Idle {
          ShutdownSection();
        }
    }

    // -------------------------------------------------------------- the functions, each run alone

    /** A step of one thread, `k` steps after `m`. */
    method Advance(ghost m: Machine, e: Event, ghost k: nat, ghost p: Proof) returns (ghost p': Proof)
      requires Holds(View(), p) && !e.Arrive? && View() == Alone(m, e, k)
      modifies this
      ensures View() == Alone(m, e, k + 1) && Holds(View(), p') && p'.s == Step(p.s, e)
    {
      AloneNext(m, e, k);
      p' := Take(e, p);
    }

    /** `Advance`, with what follows for the control state. */
    method Next(ghost m: Machine, e: Event, ghost k: nat, ghost p: Proof) returns (ghost k': nat, ghost p': Proof)
      requires Holds(View(), p) && !e.Arrive? && View() == Alone(m, e, k)
      modifies this
      ensures k' == k + 1 && View() == Alone(m, e, k') && Holds(View(), p') && p'.s == Step(p.s, e)
      ensures pc == p'.s.pc && epc == p'.s.epc && stopEt == p'.s.stopEt && log == p'.s.log && !p'.s.fault
    {
      p' := Advance(m, e, k, p);
      k' := k + 1;
      ControlOf(View(), p');
    }

    /** `cleanup_flows`: from the tail of the active list to the first live flow, then the splice. */
    method CleanupFlows(ghost p: Proof) returns (ghost k: nat, ghost p': Proof)
      requires Holds(View(), p) && pc.Cleaning?
      modifies this
      ensures View() == Alone(old(View()), Event.Process, k) && Holds(View(), p')
      ensures pc == (if old(pc.next).Some? then Parsing(old(pc.next).value) else Stopped)
      ensures old(pc.next).None? ==> stopEt
    {
      k, p' := 0, p;
      ghost var m := View();
      var next := pc.next;
      var n := Rings.Last(links, active);
      var expire := IsExpired(n);
      while expire
        invariant pc == Cleaning(next) && View() == Alone(m, Event.Process, k) && Holds(View(), p')
        invariant n == Rings.Last(links, active) && expire == TailIsExpired(View())
        decreases |p'.s.active|
      {
        n, p' := ExpireTurn(m, k, p', n.value);
        k := k + 1;
        expire := IsExpired(n);
      }
      p' := StopTurn(m, k, p', next);
      k := k + 1;
    }

    /** One turn at the last node `n`; the node to go on with is the new last node. */
    method ExpireTurn(ghost m: Machine, ghost k: nat, ghost p: Proof, n: nat) returns (next: Ptr, ghost p': Proof)
      requires Holds(View(), p) && View() == Alone(m, Event.Process, k)
      requires pc.Cleaning? && TailIsExpired(View()) && Rings.Last(links, active) == Some(n)
      modifies this
      ensures View() == Alone(m, Event.Process, k + 1) && Holds(View(), p') && pc == old(pc)
      ensures next == Rings.Last(links, active) && |p'.s.active| < |p.s.active|
    {
      TailMovesToPrev(View(), p);
      TailAgrees(View(), p.s);
      CleaningLeads(p.s);
      AloneNext(m, Event.Process, k);
      p' := EventHolds(View(), p, Event.Process);
      next := ExpireSection(n);
    }

    method StopTurn(ghost m: Machine, ghost k: nat, ghost p: Proof, next: Option<Frame>) returns (ghost p': Proof)
      requires Holds(View(), p) && View() == Alone(m, Event.Process, k)
      requires pc == Cleaning(next) && !TailIsExpired(View())
      modifies this
      ensures View() == Alone(m, Event.Process, k + 1) && Holds(View(), p')
      ensures pc == (if next.Some? then Parsing(next.value) else Stopped) && (next.None? ==> stopEt)
    {
      TailAgrees(View(), p.s);
      CleaningLeads(p.s);
      AloneNext(m, Event.Process, k);
      p' := EventHolds(View(), p, Event.Process);
      SpliceSection(next);
    }

    /** `parsePacket` to its return; the thread has run alone since `m`. */
    method ParsePacket(ghost m: Machine, ghost k0: nat, ghost p: Proof) returns (ghost k: nat, ghost p': Proof)
      requires Holds(View(), p) && pc.Parsing? && View() == Alone(m, Event.Process, k0)
      modifies this
      ensures View() == Alone(m, Event.Process, k) && Holds(View(), p') && pc == Idle
    {
      ControlOf(View(), p);
      ParsingLeads(p.s);
      k, p' := Next(m, Event.Process, k0, p);
      if pc.ReadingWrapper? {
        k, p' := ReadAndFill(m, k, p');
      } else if pc.Filling? {
        k, p' := FillAndInsert(m, k, p');
      }
    }

    method ReadAndFill(ghost m: Machine, ghost k0: nat, ghost p: Proof) returns (ghost k: nat, ghost p': Proof)
      requires Holds(View(), p) && pc.ReadingWrapper? && pc == p.s.pc && View() == Alone(m, Event.Process, k0)
      modifies this
      ensures View() == Alone(m, Event.Process, k) && Holds(View(), p') && pc == Idle
    {
      k, p' := Next(m, Event.Process, k0, p);
      k, p' := FillAndInsert(m, k, p');
    }

    /** `parsePacket` from the scratch session on. */
    method FillAndInsert(ghost m: Machine, ghost k0: nat, ghost p: Proof) returns (ghost k: nat, ghost p': Proof)
      requires Holds(View(), p) && pc.Filling? && pc == p.s.pc && View() == Alone(m, Event.Process, k0)
      modifies this
      ensures View() == Alone(m, Event.Process, k) && Holds(View(), p') && pc == Idle
    {
      FillingLeads(p.s);
      k, p' := Next(m, Event.Process, k0, p);
      if pc.SecondNode? {
        SecondNodeLeads(p'.s);
        k, p' := Next(m, Event.Process, k, p');
      }
    }

    /** `process_packet`. */
    method ProcessPacket(f: Frame, ghost p: Proof) returns (ghost k: nat, ghost p': Proof)
      requires Holds(View(), p) && pc.Idle? && InTime(p.s, f)
      modifies this
      ensures View() == Alone(Taking(old(View()), Arrive(f)), Event.Process, k) && Holds(View(), p') && pc == Idle
    {
      ArriveLeads(View(), f);
      p' := Take(Arrive(f), p);
      ghost var m := View();
      assert m == Alone(m, Event.Process, 0);
      k := 0;
      if pc.Cleaning? {
        k, p' := CleanupFlows(p');
      }
      k, p' := ParsePacket(m, k, p');
    }

    /** `reset_flow_table` and the stop of the threads. */
    method ResetFlowTable(ghost p: Proof) returns (ghost k: nat, ghost p': Proof)
      requires Holds(View(), p) && pc.Idle?
      modifies this
      ensures View() == Alone(Taking(old(View()), Shutdown), Event.Process, k) && Holds(View(), p')
      ensures pc == Stopped && stopEt
    {
      p' := StartShutdown(p);
      k, p' := CleanupFlows(p');
    }

    method StartShutdown(ghost p: Proof) returns (ghost p': Proof)
      requires Holds(View(), p) && pc.Idle?
      modifies this
      ensures View() == Taking(old(View()), Shutdown) && Holds(View(), p') && pc == Cleaning(None)
    {
      ShutdownLeads(View());
      p' := Take(Shutdown, p);
    }

    /** One turn of the loop of `exportThread`, and of its final drain: the record of the first expired flow
        is written, and the rest of the queue stays. */
    method ExportOne(ghost p: Proof) returns (ghost p': Proof)
      requires Holds(View(), p) && epc.Waiting? && expired != None
      modifies this
      ensures View() == Alone(old(View()), Event.Export, 4) && Holds(View(), p') && epc == Waiting
      ensures p'.s == ExportStep(ExportStep(ExportStep(ExportStep(p.s))))
      ensures p.s.expired != [] && p'.s.expired == p.s.expired[1..]
      ensures log == old(log) + [RecOf(p.s, p.s.expired[0])] && pc == old(pc) && stopEt == old(stopEt)
    {
      ghost var m := View();
      ControlOf(m, p);
      QueueIsHeaded(m, p.s);
      ExportTurn(p.s);
      ghost var k;
      k, p' := TwoTurns(m, 0, p);
      k, p' := TwoTurns(m, k, p');
    }

    /** Pop and write, or release the session and the node. */
    method TwoTurns(ghost m: Machine, ghost k: nat, ghost p: Proof) returns (ghost k': nat, ghost p': Proof)
      requires Holds(View(), p) && View() == Alone(m, Event.Export, k)
      modifies this
      ensures k' == k + 2 && View() == Alone(m, Event.Export, k')
      ensures Holds(View(), p') && p'.s == ExportStep(ExportStep(p.s))
      ensures pc == p'.s.pc && epc == p'.s.epc && stopEt == p'.s.stopEt && log == p'.s.log
    {
      ghost var k1, p1 := Next(m, Event.Export, k, p);
      k', p' := Next(m, Event.Export, k1, p1);
    }
  }
}
