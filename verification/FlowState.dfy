/** The whole monitor as a state machine of two threads. A step is one locked section of the source
    or one unlocked access to data the threads share, together with the thread's private work. */
module FlowState {
  import opened FlowTypes
  import opened Frames
  import opened Lists

  /** The `void *data` of a list node: nothing yet, a session, or a node of the hash table. */
  datatype Payload = NoData | ToSession(s: nat) | ToNode(n: nat)

  /** `IPSession`, with the fields of its `incoming` flow. */
  datatype Session = Session(key: Key, first: nat, last: nat, npack: nat, nbytes: nat, activeNode: nat)

  const NO_SESSION := Session(ZERO_KEY, 0, 0, 0, 0, 0)

  /** Where the process thread stands. `Cleaning(None)` is `reset_flow_table` at shutdown. */
  datatype ProcPc =
    | Idle
    | Cleaning(next: Option<Frame>)
    | Parsing(f: Frame)
    | ReadingWrapper(f: Frame, w: nat, popped: nat)
    | Filling(f: Frame)
    | SecondNode(f: Frame, naux: nat)
    | Stopped

  /** Where the export thread stands; the node in its hand is `n`. */
  datatype ExportPc =
    | Waiting
    | Popped(n: nat)
    | Exported(n: nat, x: nat)
    | SessionReleased(n: nat)
    | Finished

  datatype State = State(
    // clocks: last_packet_timestamp, previous, previous2
    now: nat, previous: nat, previous2: nat,
    // memory of the list nodes and of the sessions
    node: seq<Payload>, sess: seq<Session>,
    // process thread: flow_table, active_flow_list, flags_expired_flow_list, aux_session
    table: seq<seq<nat>>, active: seq<nat>, flags: seq<nat>, aux: Option<nat>,
    // shared: expired_flow_list and the two pools
    expired: seq<nat>,
    nodeFree: seq<nat>, nodeUsed: nat,
    wrapData: seq<nat>, sessFree: seq<nat>, sessUsed: seq<nat>,
    // control
    pc: ProcPc, epc: ExportPc, stopEt: bool,
    // counters
    malformed: nat, unprocessedPackets: nat, unprocessedFlows: nat,
    /** Control reached a null dereference, a failed assertion, exit(-1) or the second loop of
        cleanup_flows. */
    fault: bool,
    // history: the packets that entered a flow, and the records written
    accepted: seq<Packet>, log: seq<Rec>)

  datatype Event = Arrive(f: Frame) | Process | Export | Shutdown

  // ---------------------------------------------------------------- memory

  function At<T>(s: seq<T>, i: nat, default: T): T {
    if i < |s| then s[i] else default
  }

  function Put<T>(s: seq<T>, i: nat, v: T): (r: seq<T>)
    ensures |r| == |s|
  {
    if i < |s| then s[i := v] else s
  }

  function Data(s: State, n: nat): Payload {
    At(s.node, n, NoData)
  }

  function Sess(s: State, x: nat): Session {
    At(s.sess, x, NO_SESSION)
  }

  function Target(p: Payload): nat {
    match p
    case NoData => 0
    case ToSession(x) => x
    case ToNode(n) => n
  }

  function Bucket(s: State, i: nat): seq<nat> {
    At(s.table, i, [])
  }

  /** The session a node of the table, or of the active or expired lists, stands for. */
  function SessionOf(s: State, n: nat): nat {
    match Data(s, n)
    case NoData => 0
    case ToSession(x) => x
    case ToNode(h) => Target(Data(s, h))
  }

  function RecOf(s: State, n: nat): Rec {
    var v := Sess(s, SessionOf(s, n));
    Rec(v.key, v.first, v.last, v.npack, v.nbytes)
  }

  // ---------------------------------------------------------------- process thread

  /** `allocIPSessionPool` with `n` sessions, `allocNodelPool` with twice as many nodes, and the
      zeroed table; each pool prepends, so the highest index is at the head. */
  function Start(n: nat): State {
    State(0, 0, 0,
          seq(2 * n, i => NoData), seq(n, i => NO_SESSION),
          EmptyTable(), [], [], None,
          [],
          Downto(2 * n), 0,
          seq(n, i => i), Downto(n), [],
          Idle, Waiting, false,
          0, 0, 0, false,
          [], [])
  }

  function Downto(n: nat): (r: seq<nat>)
    ensures |r| == n && forall i :: 0 <= i < n ==> r[i] == n - 1 - i
  {
    if n == 0 then [] else [n - 1] + Downto(n - 1)
  }

  function EmptyTable(): (t: seq<seq<nat>>)
    ensures |t| == MAX_FLOW_TABLE_SIZE && forall i :: 0 <= i < |t| ==> t[i] == []
  {
    seq(MAX_FLOW_TABLE_SIZE, i => [])
  }

  function InitData(s: State, second: nat): State {
    s.(previous2 := s.previous, previous := second,
       active := [], expired := [], flags := [],
       table := EmptyTable(), aux := None)
  }

  /** Entering `cleanup_flows`; `n_flags` is taken from the flags list here. */
  function StartCleanup(s: State, next: Option<Frame>): State {
    s.(pc := Cleaning(next), fault := s.fault || s.flags != [])
  }

  /** `process_packet` up to `perSecOps`. */
  function ArriveStep(s: State, f: Frame): State {
    var t := s.(now := f.Ts());
    var u := if t.previous == 0 then InitData(t, f.Second()) else t;
    if u.previous < f.Second() then StartCleanup(u, Some(f))
    else if u.previous > f.Second() && u.previous2 < f.Second()
    then u.(previous := u.previous2, pc := Parsing(f))
    else u.(pc := Parsing(f))
  }

  predicate TailExpired(s: State) {
    s.active != []
    && Elapsed(s.now, Sess(s, SessionOf(s, s.active[|s.active| - 1])).last) > EXPIRATION_FLOW_TIME
  }

  /** `releaseNodel`. */
  function ReleaseNode(s: State, n: nat): State {
    if s.nodeUsed == 0 then s.(fault := true)
    else s.(nodeFree := s.nodeFree + [n], nodeUsed := s.nodeUsed - 1)
  }

  /** One turn of the first loop of `cleanup_flows`. */
  function ExpireTail(s: State): State
    requires s.active != []
  {
    var a := s.active[|s.active| - 1];
    var h := Target(Data(s, a));
    var i := GetIndex(Sess(s, SessionOf(s, a)).key);
    ReleaseNode(s.(table := Put(s.table, i, Unlink(Bucket(s, i), h)),
                   node := Put(s.node, a, Data(s, h)),
                   active := Unlink(s.active, a),
                   flags := s.flags + [a]), h)
  }

  /** The end of `cleanup_flows`, the splice under `sem_expired_list`, and what its caller does next. */
  function Splice(s: State, next: Option<Frame>): State {
    var t := s.(expired := s.expired + s.flags, flags := []);
    match next
    case Some(f) => t.(previous2 := t.previous, previous := f.Second(), pc := Parsing(f))
    case None => t.(stopEt := true, pc := Stopped)
  }

  /** The start of `parsePacket`: reuse the scratch session or lock the session pool for one. */
  function ParsingStep(s: State, f: Frame): State {
    if f.caplen < ETH_HLEN then s.(pc := Idle)
    else match s.aux
      case Some(x) =>
        var v := Sess(s, x);
        s.(sess := Put(s.sess, x, NO_SESSION.(first := v.first, last := v.last, activeNode := v.activeNode)),
           pc := Filling(f))
      case None =>
        if s.sessFree == [] then s.(fault := true)
        else if |s.sessFree| == 1 then s.(unprocessedPackets := s.unprocessedPackets + 1, pc := Idle)
        else
          var w := s.sessFree[0];
          s.(sessFree := s.sessFree[1..], sessUsed := s.sessUsed + [w],
             pc := ReadingWrapper(f, w, At(s.wrapData, w, 0)))
  }

  /** `return n->data`, after the pool's mutex was dropped. */
  function ReadWrapper(s: State, f: Frame, w: nat): State {
    s.(aux := Some(At(s.wrapData, w, 0)), pc := Filling(f))
  }

  /** `list_search` with `compareTupleFlow`: the first position in the bucket with this key. */
  function FirstMatch(s: State, bucket: seq<nat>, k: Key): (i: nat)
    ensures i <= |bucket|
    ensures i < |bucket| ==> Sess(s, SessionOf(s, bucket[i])).key == k
    ensures forall j :: 0 <= j < i ==> Sess(s, SessionOf(s, bucket[j])).key != k
  {
    if bucket == [] then 0
    else if CompareTupleFlow(Sess(s, SessionOf(s, bucket[0])).key, k) == 0 then 0
    else 1 + FirstMatch(s, bucket[1..], k)
  }

  /** The rest of `parsePacket`, and `insertFlow` up to the first `getNodel`. What a packet that is not
      counted leaves in the scratch session is not kept: it is cleared before the next use. */
  function FillingStep(s: State, f: Frame): State {
    match s.aux
    case None => s.(fault := true)
    case Some(x) =>
      match ParseInto(f, Sess(s, x).key)
      case Ignored => s.(pc := Idle)
      case Malformed => s.(malformed := s.malformed + 1, pc := Idle)
      case FlowPacket(k) =>
        var t := s.(sess := Put(s.sess, x, Session(k, s.now, s.now, 1, f.len, Sess(s, x).activeNode)));
        InsertFlow(t, f, x, k)
  }

  function InsertFlow(s: State, f: Frame, x: nat, k: Key): State {
    var b := Bucket(s, GetIndex(k));
    var i := FirstMatch(s, b, k);
    if i < |b| && Elapsed(s.now, Sess(s, SessionOf(s, b[i])).last) <= EXPIRATION_FLOW_TIME
    then UpdateFlow(s, SessionOf(s, b[i]), Packet(k, s.now, f.len))
    else if s.nodeFree == [] then s.(fault := true)
    else if |s.nodeFree| == 1 then s.(unprocessedFlows := s.unprocessedFlows + 1, pc := Idle)
    else
      var naux := s.nodeFree[0];
      s.(nodeFree := s.nodeFree[1..], nodeUsed := s.nodeUsed + 1,
         node := Put(s.node, naux, ToSession(x)), pc := SecondNode(f, naux))
  }

  /** `updateFlowTable`. */
  function UpdateFlow(s: State, x: nat, p: Packet): State {
    var v := Sess(s, x);
    s.(sess := Put(s.sess, x, v.(last := p.ts, npack := (v.npack + 1) % U32, nbytes := (v.nbytes + p.len) % U64)),
       active := [v.activeNode] + Unlink(s.active, v.activeNode),
       accepted := s.accepted + [p], pc := Idle)
  }

  /** `insertFlowTable` from the second `getNodel` on. */
  function SecondNodeStep(s: State, f: Frame, naux: nat): State {
    if s.nodeFree == [] || s.aux.None? then s.(fault := true)
    else if |s.nodeFree| == 1
    then ReleaseNode(s.(unprocessedFlows := s.unprocessedFlows + 1, pc := Idle), naux)
    else
      var a, x := s.nodeFree[0], s.aux.value;
      var k := Sess(s, x).key;
      var i := GetIndex(k);
      s.(nodeFree := s.nodeFree[1..], nodeUsed := s.nodeUsed + 1,
         node := Put(s.node, a, ToNode(naux)),
         table := Put(s.table, i, [naux] + Bucket(s, i)),
         active := [a] + s.active,
         sess := Put(s.sess, x, Sess(s, x).(activeNode := a)),
         aux := None, accepted := s.accepted + [Packet(k, s.now, f.len)], pc := Idle)
  }

  function ProcessStep(s: State): State {
    match s.pc
    case Idle => s
    case Cleaning(next) => if TailExpired(s) then ExpireTail(s) else Splice(s, next)
    case Parsing(f) => ParsingStep(s, f)
    case ReadingWrapper(f, w, _) => ReadWrapper(s, f, w)
    case Filling(f) => FillingStep(s, f)
    case SecondNode(f, naux) => SecondNodeStep(s, f, naux)
    case Stopped => s
  }

  // ---------------------------------------------------------------- export thread

  /** `exportThread`: pop under `sem_expired_list`, export, release the session, release the node.
      The final drain does the same until the queue is empty. */
  function ExportStep(s: State): State {
    match s.epc
    case Waiting =>
      if s.expired != [] then s.(expired := s.expired[1..], epc := Popped(s.expired[0]))
      else if s.stopEt then s.(epc := Finished)
      else s
    case Popped(n) => s.(log := s.log + [RecOf(s, n)], epc := Exported(n, Target(Data(s, n))))
    case Exported(n, x) => ReleaseSession(s, x).(epc := SessionReleased(n))
    case SessionReleased(n) => ReleaseNode(s, n).(epc := Waiting)
    case Finished => s
  }

  /** `releaseIPSession`: the wrapper at the head of the used list takes the session. */
  function ReleaseSession(s: State, x: nat): State {
    if s.sessUsed == [] then s.(fault := true)
    else
      var w, v := s.sessUsed[0], Sess(s, x);
      s.(sess := Put(s.sess, x, NO_SESSION.(first := v.first, last := v.last, activeNode := v.activeNode)),
         wrapData := Put(s.wrapData, w, x),
         sessUsed := s.sessUsed[1..], sessFree := s.sessFree + [w])
  }

  // ---------------------------------------------------------------- runs

  /** One event: a packet or the shutdown signal is taken only when the process thread is idle. */
  function Step(s: State, e: Event): State {
    match e
    case Arrive(f) => if s.pc.Idle? then ArriveStep(s, f) else s
    case Process => ProcessStep(s)
    case Export => ExportStep(s)
    case Shutdown => if s.pc.Idle? then StartCleanup(s.(now := INFINITE_TIME), None) else s
  }

  /** The state after a schedule: the threads interleave in the order the events are listed. */
  function Run(n: nat, schedule: seq<Event>): State {
    if schedule == [] then Start(n)
    else Step(Run(n, schedule[..|schedule| - 1]), schedule[|schedule| - 1])
  }
}
