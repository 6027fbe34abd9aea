/** What every reachable state of the monitor satisfies. `Own` is a certificate that says, for each
    node and each session, the one place it is in; it is not part of the program's state. */
module FlowInvariant {
  import opened FlowTypes
  import opened Frames
  import opened Lists
  import opened FlowState
  import opened Sessionization

  datatype NodePlace = NFree | NBucket(i: nat) | NActive | NFlags | NExpired | NExporter | NProcess

  /** A held session is reached through exactly one node of the active or expired lists, or through
      the one in the export thread's hand. */
  datatype SessPlace = SFree | SAux | SHeld

  datatype Own = Own(node: seq<NodePlace>, sess: seq<SessPlace>)

  // ---------------------------------------------------------------- where things are

  function HandNodes(s: State): seq<nat> {
    match s.epc
    case Popped(n) => [n]
    case Exported(n, _) => [n]
    case SessionReleased(n) => [n]
    case _ => []
  }

  function ProcessNodes(s: State): seq<nat> {
    if s.pc.SecondNode? then [s.pc.naux] else []
  }

  function NodesAt(s: State, pl: NodePlace): seq<nat> {
    match pl
    case NFree => s.nodeFree
    case NBucket(i) => Bucket(s, i)
    case NActive => s.active
    case NFlags => s.flags
    case NExpired => s.expired
    case NExporter => HandNodes(s)
    case NProcess => ProcessNodes(s)
  }

  function FreeSessions(s: State): seq<nat> {
    seq(|s.sessFree|, i requires 0 <= i < |s.sessFree| => At(s.wrapData, s.sessFree[i], 0))
  }

  /** The scratch session, also while only its wrapper is in the process thread's hand. */
  function AuxSessions(s: State): seq<nat> {
    if s.pc.ReadingWrapper? then [s.pc.popped]
    else if s.aux.Some? then [s.aux.value]
    else []
  }

  ghost predicate Shapes(s: State, o: Own) {
    && |s.node| == |o.node| == 2 * |s.sess|
    && |o.sess| == |s.wrapData| == |s.sess|
    && |s.sess| >= 1
    && |s.table| == MAX_FLOW_TABLE_SIZE
  }

  ghost predicate NodeLists(s: State, o: Own) {
    forall pl: NodePlace {:trigger NodesAt(s, pl)} :: Tagged(NodesAt(s, pl), o.node, pl)
  }

  ghost predicate SessionLists(s: State, o: Own) {
    && Tagged(FreeSessions(s), o.sess, SFree)
    && Tagged(AuxSessions(s), o.sess, SAux)
  }

  ghost predicate Wrappers(s: State) {
    && NoDup(s.sessFree + s.sessUsed)
    && (forall i :: 0 <= i < |s.sessFree| ==> s.sessFree[i] < |s.wrapData|)
    && (forall i :: 0 <= i < |s.sessUsed| ==> s.sessUsed[i] < |s.wrapData|)
  }

  // ---------------------------------------------------------------- how things are linked

  ghost predicate Outer(s: State, o: Own, n: nat) {
    && n < |o.node|
    && (o.node[n] == NActive || o.node[n] == NFlags || o.node[n] == NExpired
        || (o.node[n] == NExporter && (s.epc.Popped? || s.epc.Exported?)))
  }

  ghost predicate OuterLinked(s: State, o: Own, n: nat) {
    var x := SessionOf(s, n);
    && x < |o.sess| && o.sess[x] == SHeld && Sess(s, x).activeNode == n
    && if n < |o.node| && o.node[n] == NActive then
         && Data(s, n).ToNode?
         && var h := Data(s, n).n;
         && h < |o.node| && o.node[h] == NBucket(GetIndex(Sess(s, x).key)) && Data(s, h) == ToSession(x)
       else Data(s, n) == ToSession(x)
  }

  ghost predicate HashLinked(s: State, o: Own, h: nat) {
    && Data(s, h).ToSession?
    && var x := Data(s, h).s;
    && x < |o.sess| && o.sess[x] == SHeld
    && var a := Sess(s, x).activeNode;
    && a < |o.node| && o.node[a] == NActive && Data(s, a) == ToNode(h)
  }

  ghost predicate SessionLinked(s: State, o: Own, x: nat) {
    var a := Sess(s, x).activeNode;
    Outer(s, o, a) && SessionOf(s, a) == x
  }

  ghost predicate Links(s: State, o: Own) {
    && (forall n {:trigger OuterLinked(s, o, n)} :: Outer(s, o, n) ==> OuterLinked(s, o, n))
    && (forall h {:trigger HashLinked(s, o, h)} ::
          0 <= h < |o.node| && o.node[h].NBucket? ==> HashLinked(s, o, h))
    && (forall x {:trigger SessionLinked(s, o, x)} ::
          0 <= x < |o.sess| && o.sess[x] == SHeld ==> SessionLinked(s, o, x))
  }

  // ---------------------------------------------------------------- how many there are

  ghost predicate Counts(s: State) {
    && |s.nodeFree| + 2 * |s.active| + |s.flags| + |s.expired| + |HandNodes(s)| + |ProcessNodes(s)|
       == |s.node|
    && |s.nodeFree| + s.nodeUsed == |s.node|
    && |s.sessUsed| == |AuxSessions(s)| + |s.active| + |s.flags| + |s.expired| + HandSessions(s)
    && |s.sessFree| + |s.sessUsed| == |s.sess|
    && |s.sessFree| >= 1
  }

  function HandSessions(s: State): nat {
    if s.epc.Popped? || s.epc.Exported? then 1 else 0
  }

  // ---------------------------------------------------------------- the records in order of time

  /** The nodes that carry a record not yet written, in the order they will leave. */
  function Queue(s: State): seq<nat> {
    (if s.epc.Popped? then [s.epc.n] else []) + s.expired + s.flags + Reverse(s.active)
  }

  function RecsAt(s: State, ns: seq<nat>): (r: seq<Rec>)
    ensures |r| == |ns|
  {
    seq(|ns|, i requires 0 <= i < |ns| => RecOf(s, ns[i]))
  }

  /** Every record of the run: written, waiting to be written, or live. */
  function Records(s: State): seq<Rec> {
    s.log + RecsAt(s, Queue(s))
  }

  /** Oldest first; two records of one key more than the limit apart; and the first `dead` of them,
      those taken off the table, beyond the limit. */
  ghost predicate Ordered(recs: seq<Rec>, dead: int, now: nat) {
    && 0 <= dead <= |recs|
    && (forall i, j :: 0 <= i < j < |recs| ==> recs[i].last <= recs[j].last)
    && (forall i, j :: 0 <= i < j < |recs| && recs[i].key == recs[j].key ==>
          recs[i].last + EXPIRATION_FLOW_TIME < recs[j].last)
    && (forall i :: 0 <= i < |recs| ==> recs[i].last <= now)
    && (forall i :: 0 <= i < dead ==> recs[i].last + EXPIRATION_FLOW_TIME < now)
  }

  /** At the infinite time of the shutdown every record is beyond the limit. */
  ghost predicate BeforeTheEnd(recs: seq<Rec>) {
    forall i :: 0 <= i < |recs| ==> recs[i].last + EXPIRATION_FLOW_TIME < INFINITE_TIME
  }

  ghost predicate Timeline(s: State) {
    && Ordered(Records(s), |Records(s)| - |s.active|, s.now)
    && BeforeTheEnd(Records(s))
    && Sessionized(Records(s), s.accepted) && Conserved(Records(s), s.accepted)
  }

  /** In a bucket, the records of one key stand newest first. */
  ghost predicate NewestFirst(s: State, bucket: seq<nat>) {
    forall i, j :: 0 <= i < j < |bucket| && RecOf(s, bucket[i]).key == RecOf(s, bucket[j]).key ==>
      RecOf(s, bucket[j]).last + EXPIRATION_FLOW_TIME < RecOf(s, bucket[i]).last
  }

  ghost predicate Buckets(s: State) {
    forall i {:trigger NewestFirst(s, Bucket(s, i))} ::
      0 <= i < MAX_FLOW_TABLE_SIZE ==> NewestFirst(s, Bucket(s, i))
  }

  // ---------------------------------------------------------------- control

  ghost predicate Closing(s: State) {
    s.pc == Cleaning(None) || s.pc == Stopped
  }

  ghost predicate NoFlows(table: seq<seq<nat>>) {
    forall i :: 0 <= i < |table| ==> table[i] == []
  }

  ghost predicate Clocks(s: State) {
    && (if Closing(s) then s.now == INFINITE_TIME
        else s.now + EXPIRATION_FLOW_TIME < INFINITE_TIME && s.previous2 <= s.previous <= s.now / US_IN_SEC)
    && (s.previous == 0 ==>
          && (s.pc.Idle? || Closing(s))
          && s.expired == [] && s.flags == [] && s.active == [] && s.aux == None
          && NoFlows(s.table))
  }

  ghost predicate Control(s: State) {
    && !s.fault && s.unprocessedFlows == 0
    && (s.pc.Cleaning? || s.flags == [])
    && (s.stopEt <==> s.pc == Stopped)
    && (s.epc == Finished ==> s.stopEt && s.expired == [])
    && (s.epc.Exported? ==> Data(s, s.epc.n) == ToSession(s.epc.x))
    && match s.pc
       case Idle => true
       case Cleaning(next) => next.Some? ==> s.now == next.value.Ts()
       case Parsing(f) => s.now == f.Ts()
       case ReadingWrapper(f, w, popped) =>
         && s.now == f.Ts() && s.aux.None?
         && s.sessUsed != [] && Last(s.sessUsed) == w && At(s.wrapData, w, 0) == popped
       case Filling(f) => s.now == f.Ts() && s.aux.Some?
       case SecondNode(f, naux) =>
         && s.now == f.Ts() && s.aux.Some? && Data(s, naux) == ToSession(s.aux.value)
         && var v := Sess(s, s.aux.value);
         && Parse(f) == FlowPacket(v.key) && v == Session(v.key, s.now, s.now, 1, f.len, v.activeNode)
         && AllExpired(Records(s), v.key, s.now)
       case Stopped => s.active == []
  }

  /** A session in the pool, or fresh from it, has a cleared flow. */
  ghost predicate Cleared(s: State) {
    && (forall i {:trigger FreeSessions(s)[i]} :: 0 <= i < |FreeSessions(s)| ==>
          Sess(s, FreeSessions(s)[i]).key == ZERO_KEY)
    && (s.pc.ReadingWrapper? ==> Sess(s, s.pc.popped).key == ZERO_KEY)
    && (s.pc.Filling? && s.aux.Some? ==> Sess(s, s.aux.value).key == ZERO_KEY)
  }

  ghost predicate Books(s: State) {
    Wrappers(s) && Counts(s) && Clocks(s)
  }

  ghost predicate Inv(s: State, o: Own) {
    && Shapes(s, o) && NodeLists(s, o) && SessionLists(s, o) && Links(s, o)
    && Books(s) && Timeline(s) && Buckets(s) && Control(s)
  }
}
