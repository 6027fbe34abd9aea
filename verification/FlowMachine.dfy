/** The monitor on its own data structures: circular lists of linked nodes, and two pools of wrapper nodes.
    The steps are those of `FlowState`, made with the pointer operations of `list.c`. */
module FlowMachine {
  import opened FlowTypes
  import opened Frames
  import opened FlowState
  import opened Lists
  import Rings

  type Ptr = Rings.Ptr

  /** `nodel_pool_*` or `ip_session_pool_*`: wrapper nodes with the element each carries, and two lists. */
  datatype Pool = Pool(links: Rings.Links, data: seq<nat>, free: Ptr, used: Ptr)

  datatype Machine = Machine(
    now: nat, previous: nat, previous2: nat,
    // the pooled nodes: what they carry, and their links; the sessions
    node: seq<Payload>, links: Rings.Links, sess: seq<Session>,
    // flow_table, active_flow_list, flags_expired_flow_list, expired_flow_list, aux_session
    table: seq<Ptr>, active: Ptr, flags: Ptr, expired: Ptr, aux: Option<nat>,
    nodes: Pool, sessions: Pool,
    pc: ProcPc, epc: ExportPc, stopEt: bool,
    malformed: nat, unprocessedPackets: nat, unprocessedFlows: nat,
    fault: bool,
    accepted: seq<Packet>, log: seq<Rec>)

  // ---------------------------------------------------------------- the pools

  datatype Taken = Crash | LastKept(p: Pool) | Got(w: nat, p: Pool)

  /** `getNodel` and `getIPSession` under the mutex: the last free wrapper goes back. */
  function Take(p: Pool): Taken {
    match p.free
    case None => Crash
    case Some(w) =>
      var (l, free) := Rings.PopFirst(p.links, p.free);
      if free == None then
        var (k, list) := Rings.Append(l, free, w);
        LastKept(p.(links := k, free := list))
      else
        var (k, used) := Rings.Append(l, p.used, w);
        Got(w, p.(links := k, free := free, used := used))
  }

  /** `releaseNodel` and `releaseIPSession`: the wrapper used longest carries `x` back. */
  function Give(p: Pool, x: nat): Option<Pool> {
    match p.used
    case None => None
    case Some(w) =>
      var (l, used) := Rings.PopFirst(p.links, p.used);
      var (k, free) := Rings.Append(l, p.free, w);
      Some(Pool(k, Put(p.data, w, x), free, used))
  }

  /** The loop of `allocNodelPool` after `k` turns. */
  function FillPool(size: nat, k: nat): Pool {
    if k == 0 then Pool(NoLinks(size), seq(size, i => i), None, None)
    else
      var p := FillPool(size, k - 1);
      var (l, free) := Rings.Prepend(p.links, p.free, k - 1);
      p.(links := l, free := free)
  }

  function NoLinks(size: nat): (l: Rings.Links)
    ensures |l.prev| == |l.next| == size
  {
    Rings.Links(seq(size, i => None), seq(size, i => None))
  }

  function NoTable(): (t: seq<Ptr>)
    ensures |t| == MAX_FLOW_TABLE_SIZE && forall i :: 0 <= i < |t| ==> t[i] == None
  {
    seq(MAX_FLOW_TABLE_SIZE, i => None)
  }

  function Boot(n: nat): Machine {
    Machine(0, 0, 0,
            seq(2 * n, i => NoData), NoLinks(2 * n), seq(n, i => NO_SESSION),
            NoTable(), None, None, None, None,
            FillPool(2 * n, 2 * n), FillPool(n, n),
            Idle, Waiting, false,
            0, 0, 0, false,
            [], [])
  }

  // ---------------------------------------------------------------- memory

  /** The session a list node stands for. */
  function SessionAt(node: seq<Payload>, n: nat): nat {
    match At(node, n, NoData)
    case NoData => 0
    case ToSession(x) => x
    case ToNode(h) => Target(At(node, h, NoData))
  }

  function SessOf(m: Machine, n: nat): Session {
    At(m.sess, SessionAt(m.node, n), NO_SESSION)
  }

  // ---------------------------------------------------------------- arrival and cleanup

  function InitMachine(m: Machine, second: nat): Machine {
    m.(previous2 := m.previous, previous := second,
       active := None, expired := None, flags := None,
       table := NoTable(), aux := None)
  }

  function BeginCleanup(m: Machine, next: Option<Frame>): Machine {
    m.(pc := Cleaning(next), fault := m.fault || m.flags != None)
  }

  function Arriving(m: Machine, f: Frame): Machine {
    var t := m.(now := f.Ts());
    var u := if t.previous == 0 then InitMachine(t, f.Second()) else t;
    if u.previous < f.Second() then BeginCleanup(u, Some(f))
    else if u.previous > f.Second() && u.previous2 < f.Second()
    then u.(previous := u.previous2, pc := Parsing(f))
    else u.(pc := Parsing(f))
  }

  predicate TailIsExpired(m: Machine) {
    match Rings.Last(m.links, m.active)
    case None => false
    case Some(n) => Elapsed(m.now, SessOf(m, n).last) > EXPIRATION_FLOW_TIME
  }

  function GiveNode(m: Machine, n: nat): Machine {
    match Give(m.nodes, n)
    case None => m.(fault := true)
    case Some(p) => m.(nodes := p)
  }

  function FromBucket(m: Machine, i: nat, h: nat): Machine {
    var (l, list) := Rings.Remove(m.links, At(m.table, i, None), h);
    m.(links := l, table := Put(m.table, i, list))
  }

  function FromActive(m: Machine, n: nat): Machine {
    var (l, list) := Rings.Remove(m.links, m.active, n);
    m.(links := l, active := list)
  }

  function ToFlags(m: Machine, n: nat): Machine {
    var (l, list) := Rings.Append(m.links, m.flags, n);
    m.(links := l, flags := list)
  }

  /** One turn of the first loop of `cleanup_flows`, at the last active node. */
  function Retiring(m: Machine, n: nat): Machine {
    var h := Target(At(m.node, n, NoData));
    var i := GetIndex(SessOf(m, n).key);
    var t := FromBucket(m, i, h);
    var u := GiveNode(t.(node := Put(t.node, n, At(t.node, h, NoData))), h);
    ToFlags(FromActive(u, n), n)
  }

  /** The node the loop goes on with, read when the bucket was unlinked but not yet the active list. */
  function Onward(m: Machine, n: nat): Ptr {
    Rings.PrevNode(FromBucket(m, GetIndex(SessOf(m, n).key), Target(At(m.node, n, NoData))).links, m.active, n)
  }

  function SpliceFlags(m: Machine): Machine {
    if m.flags == None then m
    else
      var (l, list) := Rings.Splice(m.links, m.expired, m.flags);
      m.(links := l, expired := list, flags := None)
  }

  function Splicing(m: Machine, next: Option<Frame>): Machine {
    var t := SpliceFlags(m);
    match next
    case Some(f) => t.(previous2 := t.previous, previous := f.Second(), pc := Parsing(f))
    case None => t.(stopEt := true, pc := Stopped)
  }

  // ---------------------------------------------------------------- one packet

  function ClearSession(m: Machine, x: nat): Machine {
    var v := At(m.sess, x, NO_SESSION);
    m.(sess := Put(m.sess, x, v.(key := ZERO_KEY, npack := 0, nbytes := 0)))
  }

  function StartParsing(m: Machine, f: Frame): Machine {
    if f.caplen < ETH_HLEN then m.(pc := Idle)
    else match m.aux
      case Some(x) => ClearSession(m, x).(pc := Filling(f))
      case None =>
        match Take(m.sessions)
        case Crash => m.(fault := true)
        case LastKept(p) => m.(sessions := p, unprocessedPackets := m.unprocessedPackets + 1, pc := Idle)
        case Got(w, p) => m.(sessions := p, pc := ReadingWrapper(f, w, At(p.data, w, 0)))
  }

  function Reading(m: Machine, f: Frame, w: nat): Machine {
    m.(aux := Some(At(m.sessions.data, w, 0)), pc := Filling(f))
  }

  /** `list_search` from node `from` on, for at most `fuel` nodes. */
  function Search(m: Machine, list: Ptr, from: Ptr, k: Key, fuel: nat): Ptr
    decreases fuel
  {
    match from
    case None => None
    case Some(n) =>
      if CompareTupleFlow(SessOf(m, n).key, k) == 0 then from
      else if fuel == 0 then None
      else Search(m, list, Rings.NextNode(m.links, list, n), k, fuel - 1)
  }

  function Found(m: Machine, k: Key): Ptr {
    var list := At(m.table, GetIndex(k), None);
    Search(m, list, list, k, |m.node|)
  }

  function FillSession(m: Machine, x: nat, k: Key, len: uint32): Machine {
    var v := At(m.sess, x, NO_SESSION);
    m.(sess := Put(m.sess, x, Session(k, m.now, m.now, 1, len, v.activeNode)))
  }

  function FillingIn(m: Machine, f: Frame): Machine {
    match m.aux
    case None => m.(fault := true)
    case Some(x) =>
      match ParseInto(f, At(m.sess, x, NO_SESSION).key)
      case Ignored => m.(pc := Idle)
      case Malformed => m.(malformed := m.malformed + 1, pc := Idle)
      case FlowPacket(k) => Inserting(FillSession(m, x, k, f.len), f, x, k)
  }

  function Inserting(m: Machine, f: Frame, x: nat, k: Key): Machine {
    match Found(m, k)
    case Some(h) =>
      if Elapsed(m.now, SessOf(m, h).last) > EXPIRATION_FLOW_TIME then Opening(m, f, x)
      else Refreshing(m, SessionAt(m.node, h), Packet(k, m.now, f.len))
    case None => Opening(m, f, x)
  }

  /** `insertFlowTable` up to the first `getNodel`. */
  function Opening(m: Machine, f: Frame, x: nat): Machine {
    match Take(m.nodes)
    case Crash => m.(fault := true)
    case LastKept(p) => m.(nodes := p, unprocessedFlows := m.unprocessedFlows + 1, pc := Idle)
    case Got(w, p) =>
      var naux := At(p.data, w, 0);
      m.(nodes := p, node := Put(m.node, naux, ToSession(x)), pc := SecondNode(f, naux))
  }

  function ToActive(m: Machine, n: nat): Machine {
    var (l, list) := Rings.Prepend(m.links, m.active, n);
    m.(links := l, active := list)
  }

  /** `updateFlowTable`. */
  function Refreshing(m: Machine, x: nat, p: Packet): Machine {
    var v := At(m.sess, x, NO_SESSION);
    var t := ToActive(FromActive(m, v.activeNode), v.activeNode);
    t.(sess := Put(m.sess, x, v.(last := p.ts, npack := (v.npack + 1) % U32, nbytes := (v.nbytes + p.len) % U64)),
       accepted := m.accepted + [p], pc := Idle)
  }

  function ToBucket(m: Machine, i: nat, n: nat): Machine {
    var (l, list) := Rings.Prepend(m.links, At(m.table, i, None), n);
    m.(links := l, table := Put(m.table, i, list))
  }

  /** `insertFlowTable` from the second `getNodel` on. */
  function Linking(m: Machine, f: Frame, naux: nat): Machine {
    match m.aux
    case None => m.(fault := true)
    case Some(x) =>
      match Take(m.nodes)
      case Crash => m.(fault := true)
      case LastKept(p) => GiveNode(m.(nodes := p, unprocessedFlows := m.unprocessedFlows + 1, pc := Idle), naux)
      case Got(w, p) => LinkFlow(m.(nodes := p), f, x, naux, At(p.data, w, 0))
  }

  function LinkFlow(m: Machine, f: Frame, x: nat, naux: nat, a: nat): Machine {
    var v := At(m.sess, x, NO_SESSION);
    var t := ToActive(ToBucket(m.(node := Put(m.node, a, ToNode(naux))), GetIndex(v.key), naux), a);
    t.(sess := Put(m.sess, x, v.(activeNode := a)),
       aux := None, accepted := m.accepted + [Packet(v.key, m.now, f.len)], pc := Idle)
  }

  function Processing(m: Machine): Machine {
    match m.pc
    case Idle => m
    case Cleaning(next) =>
      if TailIsExpired(m) then Retiring(m, Rings.Last(m.links, m.active).value) else Splicing(m, next)
    case Parsing(f) => StartParsing(m, f)
    case ReadingWrapper(f, w, _) => Reading(m, f, w)
    case Filling(f) => FillingIn(m, f)
    case SecondNode(f, naux) => Linking(m, f, naux)
    case Stopped => m
  }

  // ---------------------------------------------------------------- the export thread

  function Popping(m: Machine): Machine {
    match m.expired
    case Some(n) =>
      var (l, list) := Rings.PopFirst(m.links, m.expired);
      m.(links := l, expired := list, epc := Popped(n))
    case None => if m.stopEt then m.(epc := Finished) else m
  }

  function Writing(m: Machine, n: nat): Machine {
    var v := SessOf(m, n);
    m.(log := m.log + [Rec(v.key, v.first, v.last, v.npack, v.nbytes)],
       epc := Exported(n, Target(At(m.node, n, NoData))))
  }

  function Releasing(m: Machine, n: nat, x: nat): Machine {
    match Give(m.sessions, x)
    case None => m.(fault := true, epc := SessionReleased(n))
    case Some(p) => ClearSession(m, x).(sessions := p, epc := SessionReleased(n))
  }

  function Exporting(m: Machine): Machine {
    match m.epc
    case Waiting => Popping(m)
    case Popped(n) => Writing(m, n)
    case Exported(n, x) => Releasing(m, n, x)
    case SessionReleased(n) => GiveNode(m, n).(epc := Waiting)
    case Finished => m
  }

  // ---------------------------------------------------------------- runs

  function Taking(m: Machine, e: Event): Machine {
    match e
    case Arrive(f) => if m.pc.Idle? then Arriving(m, f) else m
    case Process => Processing(m)
    case Export => Exporting(m)
    case Shutdown => if m.pc.Idle? then BeginCleanup(m.(now := INFINITE_TIME), None) else m
  }

  /** The program after a schedule. */
  function After(n: nat, schedule: seq<Event>): Machine {
    if schedule == [] then Boot(n)
    else Taking(After(n, schedule[..|schedule| - 1]), schedule[|schedule| - 1])
  }
}
