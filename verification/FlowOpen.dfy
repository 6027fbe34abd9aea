/** Opening a flow takes two nodes in two locked sections; the export thread may run in between. */
module FlowOpen {
  import opened FlowTypes
  import opened Frames
  import opened Lists
  import opened FlowState
  import opened FlowInvariant
  import opened FlowFrames
  import opened FlowProcess
  import opened FlowInsert
  import opened Sessionization

  // ---------------------------------------------------------------- the pool never runs out

  /** At the first `getNodel` the node pool holds at least three nodes, at the second at least two,
      whatever the export thread has or has not given back. */
  lemma PoolSuffices(s: State)
    requires Counts(s) && |s.node| == 2 * |s.sess| && s.aux.Some? && s.flags == []
    ensures s.pc.Filling? ==> |s.nodeFree| >= 3
    ensures s.pc.SecondNode? ==> |s.nodeFree| >= 2
  {
  }

  // ---------------------------------------------------------------- the first node

  function FirstNode(s: State, f: Frame, x: nat): State
    requires s.nodeFree != []
  {
    var naux := s.nodeFree[0];
    s.(nodeFree := s.nodeFree[1..], nodeUsed := s.nodeUsed + 1,
       node := Put(s.node, naux, ToSession(x)), pc := SecondNode(f, naux))
  }

  lemma FirstNodes(s: State, o: Own, f: Frame, x: nat) returns (o': Own)
    requires NodeLists(s, o) && SessionLists(s, o) && s.pc.Filling? && s.nodeFree != []
    ensures s.nodeFree[0] < |o.node| && o.node[s.nodeFree[0]] == NFree
    ensures o' == o.(node := o.node[s.nodeFree[0] := NProcess])
    ensures NodeLists(FirstNode(s, f, x), o') && SessionLists(FirstNode(s, f, x), o')
  {
    var n := s.nodeFree[0];
    UnlinkHead(s.nodeFree);
    MoveNode(s, FirstNode(s, f, x), o, n, NFree, NProcess);
    o' := o.(node := o.node[n := NProcess]);
    SessionListsFrame(s, FirstNode(s, f, x), o, o');
  }

  /** Writing the data of a node that is in no list changes no link and no record. */
  lemma WriteLinks(s: State, s': State, o: Own, o': Own, n: nat)
    requires NodeLists(s, o) && Links(s, o) && n < |o.node| && (o.node[n] == NFree || o.node[n] == NProcess)
    requires s'.sess == s.sess && s'.epc == s.epc && |s'.node| == |s.node|
    requires forall m: nat :: m != n ==> Data(s', m) == Data(s, m)
    requires o' == o.(node := o.node[n := NProcess])
    ensures Links(s', o')
  {
    forall m | Outer(s', o', m)
      ensures OuterLinked(s', o', m)
    {
      assert OuterLinked(s, o, m);
    }
    forall h | 0 <= h < |o'.node| && o'.node[h].NBucket?
      ensures HashLinked(s', o', h)
    {
      assert HashLinked(s, o, h);
    }
    forall x | 0 <= x < |o'.sess| && o'.sess[x] == SHeld
      ensures SessionLinked(s', o', x)
    {
      assert SessionLinked(s, o, x);
      assert OuterLinked(s, o, Sess(s, x).activeNode);
    }
  }

  lemma WriteKeepsRecords(s: State, s': State, o: Own, n: nat)
    requires NodeLists(s, o) && Links(s, o) && n < |o.node| && (o.node[n] == NFree || o.node[n] == NProcess)
    requires s'.sess == s.sess && s'.log == s.log && s'.table == s.table && Queue(s') == Queue(s)
    requires forall m: nat :: m != n ==> Data(s', m) == Data(s, m)
    ensures Records(s') == Records(s)
    ensures Buckets(s) ==> Buckets(s')
  {
    forall i | 0 <= i < |Queue(s)|
      ensures RecOf(s', Queue(s)[i]) == RecOf(s, Queue(s)[i])
    {
      QueueIsOuter(s, o, i);
      assert OuterLinked(s, o, Queue(s)[i]);
    }
    RecsAtFrame(s, s', Queue(s));
    if Buckets(s) {
      forall i, j | 0 <= i < MAX_FLOW_TABLE_SIZE && 0 <= j < |Bucket(s, i)|
        ensures RecOf(s', Bucket(s, i)[j]) == RecOf(s, Bucket(s, i)[j])
      {
        BucketIsTagged(s, o, i, j);
        assert HashLinked(s, o, Bucket(s, i)[j]);
      }
      BucketsFrame(s, s');
    }
  }

  lemma FirstRest(s: State, f: Frame, x: nat)
    requires Books(s) && Control(s) && s.pc == Filling(f) && s.nodeFree != [] && s.aux == Some(x)
    requires s.nodeFree[0] < |s.node| && x < |s.sess|
    requires Records(FirstNode(s, f, x)) == Records(s)
    requires Parse(f) == FlowPacket(Sess(s, x).key)
    requires var v := Sess(s, x); v == Session(v.key, s.now, s.now, 1, f.len, v.activeNode)
    requires AllExpired(Records(s), Sess(s, x).key, s.now)
    requires s.epc.Exported? ==> s.epc.n != s.nodeFree[0]
    ensures Books(FirstNode(s, f, x)) && Control(FirstNode(s, f, x))
  {
  }

  lemma HandIsNotFree(s: State, o: Own)
    requires NodeLists(s, o) && s.epc.Exported?
    ensures s.epc.n < |o.node| && o.node[s.epc.n] == NExporter
  {
    assert Tagged(NodesAt(s, NExporter), o.node, NExporter);
    assert HandNodes(s)[0] == s.epc.n;
  }

  lemma FirstKeeps(s: State, o: Own, f: Frame, x: nat) returns (o': Own)
    requires Inv(s, o) && s.pc == Filling(f) && s.nodeFree != [] && s.aux == Some(x) && x < |s.sess|
    requires Parse(f) == FlowPacket(Sess(s, x).key)
    requires var v := Sess(s, x); v == Session(v.key, s.now, s.now, 1, f.len, v.activeNode)
    requires AllExpired(Records(s), Sess(s, x).key, s.now)
    ensures Inv(FirstNode(s, f, x), o')
  {
    var s', n := FirstNode(s, f, x), s.nodeFree[0];
    o' := FirstNodes(s, o, f, x);
    WriteLinks(s, s', o, o', n);
    assert Queue(s') == Queue(s);
    WriteKeepsRecords(s, s', o, n);
    TimelineFrame(s, s');
    if s.epc.Exported? {
      HandIsNotFree(s, o);
    }
    FirstRest(s, f, x);
  }

  // ---------------------------------------------------------------- the second node

  /** The state of the second `getNodel`: the places of what it will join. */
  ghost predicate Joining(s: State, o: Own) {
    && s.pc.SecondNode? && |s.nodeFree| > 1
    && s.nodeFree[0] < |o.node| && o.node[s.nodeFree[0]] == NFree
    && s.pc.naux < |o.node| && o.node[s.pc.naux] == NProcess
    && s.aux.Some? && s.aux.value < |o.sess| && o.sess[s.aux.value] == SAux
  }

  function Joined(s: State): State
    requires s.pc.SecondNode? && |s.nodeFree| > 1 && s.aux.Some?
  {
    SecondNodeStep(s, s.pc.f, s.pc.naux)
  }

  ghost function OwnJoined(s: State, o: Own): Own
    requires Joining(s, o)
  {
    Own(o.node[s.nodeFree[0] := NActive][s.pc.naux := NBucket(GetIndex(Sess(s, s.aux.value).key))],
        o.sess[s.aux.value := SHeld])
  }

  lemma JoinPlaces(s: State, o: Own)
    requires NodeLists(s, o) && SessionLists(s, o) && s.pc.SecondNode? && |s.nodeFree| > 1 && s.aux.Some?
    ensures Joining(s, o)
  {
    assert AuxSessions(s)[0] == s.aux.value;
    assert ProcessNodes(s)[0] == s.pc.naux;
    assert Tagged(NodesAt(s, NProcess), o.node, NProcess);
    assert Tagged(NodesAt(s, NFree), o.node, NFree);
  }

  /** `Joined` with only the active list changed. */
  function HalfJoined(s: State): State
    requires |s.nodeFree| > 1
  {
    s.(nodeFree := s.nodeFree[1..], active := [s.nodeFree[0]] + s.active)
  }

  lemma JoinActive(s: State, o: Own)
    requires NodeLists(s, o) && Joining(s, o)
    ensures NodeLists(HalfJoined(s), o.(node := o.node[s.nodeFree[0] := NActive]))
  {
    UnlinkHead(s.nodeFree);
    MoveNode(s, HalfJoined(s), o, s.nodeFree[0], NFree, NActive);
  }

  lemma JoinBucket(t: State, s': State, o: Own, i: nat)
    requires NodeLists(t, o) && t.pc.SecondNode? && s'.pc.Idle? && i < |t.table|
    requires s'.table == Put(t.table, i, [t.pc.naux] + Bucket(t, i))
    requires s'.nodeFree == t.nodeFree && s'.active == t.active && s'.flags == t.flags
    requires s'.expired == t.expired && s'.epc == t.epc
    requires t.pc.naux < |o.node|
    ensures NodeLists(s', o.(node := o.node[t.pc.naux := NBucket(i)]))
  {
    assert ProcessNodes(t) == [t.pc.naux] && ProcessNodes(s') == [];
    assert Unlink(ProcessNodes(t), t.pc.naux) == [];
    assert NodesAt(s', NBucket(i)) == [t.pc.naux] + NodesAt(t, NBucket(i));
    MoveNode(t, s', o, t.pc.naux, NProcess, NBucket(i));
  }

  lemma JoinNodes(s: State, o: Own)
    requires |s.table| == MAX_FLOW_TABLE_SIZE && NodeLists(s, o) && Joining(s, o)
    ensures NodeLists(Joined(s), OwnJoined(s, o))
  {
    JoinActive(s, o);
    JoinBucket(HalfJoined(s), Joined(s), o.(node := o.node[s.nodeFree[0] := NActive]),
               GetIndex(Sess(s, s.aux.value).key));
    assert NodeLists(Joined(s), OwnJoined(s, o).(sess := o.sess));
  }

  lemma JoinSessions(s: State, o: Own)
    requires SessionLists(s, o) && Joining(s, o)
    ensures SessionLists(Joined(s), OwnJoined(s, o))
  {
    var x := s.aux.value;
    assert FreeSessions(Joined(s)) == FreeSessions(s);
    TaggedOther(FreeSessions(s), x, o.sess, SHeld, SFree);
    TaggedAway(AuxSessions(s), x, o.sess, SAux, SHeld);
    assert AuxSessions(Joined(s)) == Unlink(AuxSessions(s), x);
  }

  lemma JoinLinks(s: State, o: Own)
    requires Shapes(s, o) && NodeLists(s, o) && Links(s, o) && Joining(s, o)
    requires Data(s, s.pc.naux) == ToSession(s.aux.value)
    ensures Links(Joined(s), OwnJoined(s, o))
  {
    var s', o', a, n, x := Joined(s), OwnJoined(s, o), s.nodeFree[0], s.pc.naux, s.aux.value;
    forall m | Outer(s', o', m)
      ensures OuterLinked(s', o', m)
    {
      if m != a {
        assert OuterLinked(s, o, m);
      }
    }
    forall h | 0 <= h < |o'.node| && o'.node[h].NBucket?
      ensures HashLinked(s', o', h)
    {
      if h != n {
        assert HashLinked(s, o, h);
      }
    }
    forall y | 0 <= y < |o'.sess| && o'.sess[y] == SHeld
      ensures SessionLinked(s', o', y)
    {
      if y != x {
        assert SessionLinked(s, o, y);
        assert OuterLinked(s, o, Sess(s, y).activeNode);
      }
    }
  }

  /** Nodes that carried a record still carry the same one. */
  lemma JoinOthers(s: State, o: Own, m: nat)
    requires Shapes(s, o) && NodeLists(s, o) && Links(s, o) && Joining(s, o)
    requires Outer(s, o, m) || (m < |o.node| && o.node[m].NBucket?)
    ensures RecOf(Joined(s), m) == RecOf(s, m)
  {
    if Outer(s, o, m) {
      assert OuterLinked(s, o, m);
    } else {
      assert HashLinked(s, o, m);
    }
  }

  lemma JoinRecords(s: State, o: Own, p: Packet)
    requires Shapes(s, o) && NodeLists(s, o) && Links(s, o) && Joining(s, o)
    requires Control(s) && p == Packet(Sess(s, s.aux.value).key, s.now, s.pc.f.len)
    ensures Records(Joined(s)) == Records(s) + [Opened(p)]
  {
    var s', a := Joined(s), s.nodeFree[0];
    assert Queue(s') == Queue(s) + [a] by {
      ReverseCons(a, s.active);
    }
    forall j | 0 <= j < |Queue(s)|
      ensures RecOf(s', Queue(s)[j]) == RecOf(s, Queue(s)[j])
    {
      QueueIsOuter(s, o, j);
      JoinOthers(s, o, Queue(s)[j]);
    }
    assert RecOf(s', a) == Opened(p);
    AppendedRecords(s, s', a);
  }

  lemma AppendedRecords(s: State, s': State, a: nat)
    requires s'.log == s.log && Queue(s') == Queue(s) + [a]
    requires forall j :: 0 <= j < |Queue(s)| ==> RecOf(s', Queue(s)[j]) == RecOf(s, Queue(s)[j])
    ensures Records(s') == Records(s) + [RecOf(s', a)]
  {
  }

  /** Opening a record for a key whose records are all expired. */
  lemma OpenTimeline(s: State, s': State, p: Packet)
    requires Timeline(s) && p.ts == s.now == s'.now && s.now + EXPIRATION_FLOW_TIME < INFINITE_TIME
    requires AllExpired(Records(s), p.key, p.ts)
    requires Records(s') == Records(s) + [Opened(p)] && |s'.active| == |s.active| + 1
    requires s'.accepted == s.accepted + [p]
    ensures Timeline(s')
  {
    OrderedOpen(Records(s), |Records(s)| - |s.active|, p);
    AcceptOpening(Records(s), s.accepted, p);
    ConserveOpening(Records(s), s.accepted, p);
  }

  lemma JoinTimeline(s: State, o: Own)
    requires Shapes(s, o) && NodeLists(s, o) && Links(s, o) && Joining(s, o)
    requires Control(s) && Timeline(s) && s.now + EXPIRATION_FLOW_TIME < INFINITE_TIME
    ensures Timeline(Joined(s))
  {
    var p := Packet(Sess(s, s.aux.value).key, s.now, s.pc.f.len);
    JoinRecords(s, o, p);
    OpenTimeline(s, Joined(s), p);
  }

  /** A live record of a bucket is one of the records. */
  lemma BucketRecord(s: State, o: Own, c: nat, j: nat) returns (i: nat)
    requires NodeLists(s, o) && Links(s, o) && j < |Bucket(s, c)|
    ensures i < |Records(s)| && Records(s)[i] == RecOf(s, Bucket(s, c)[j])
  {
    var h := Bucket(s, c)[j];
    BucketIsTagged(s, o, c, j);
    assert HashLinked(s, o, h);
    var a := Sess(s, SessionOf(s, h)).activeNode;
    PlaceIsListed(s, o, a);
    var m :| 0 <= m < |s.active| && s.active[m] == a;
    i := |s.log| + QueuePos(s, m);
  }

  lemma JoinBuckets(s: State, o: Own)
    requires Shapes(s, o) && NodeLists(s, o) && Links(s, o) && Joining(s, o)
    requires Control(s) && Buckets(s)
    ensures Buckets(Joined(s))
  {
    var s', n, x := Joined(s), s.pc.naux, s.aux.value;
    var k := Sess(s, x).key;
    forall c | 0 <= c < MAX_FLOW_TABLE_SIZE
      ensures NewestFirst(s', Bucket(s', c))
    {
      var b := Bucket(s, c);
      assert NewestFirst(s, b);
      forall j: nat | j < |b|
        ensures RecOf(s', b[j]) == RecOf(s, b[j])
        ensures RecOf(s, b[j]).key == k ==> RecOf(s, b[j]).last + EXPIRATION_FLOW_TIME < s.now
      {
        BucketIsTagged(s, o, c, j);
        JoinOthers(s, o, b[j]);
        var i := BucketRecord(s, o, c, j);
      }
      PrependKeepsOrder(s, s', b, n, k);
      if c == GetIndex(k) {
        assert Bucket(s', c) == [n] + b;
      } else {
        assert Bucket(s', c) == b;
      }
    }
  }

  lemma PrependKeepsOrder(s: State, s': State, b: seq<nat>, n: nat, k: Key)
    requires NewestFirst(s, b)
    requires forall j :: 0 <= j < |b| ==> RecOf(s', b[j]) == RecOf(s, b[j])
    requires forall j :: 0 <= j < |b| && RecOf(s, b[j]).key == k ==>
      RecOf(s, b[j]).last + EXPIRATION_FLOW_TIME < RecOf(s', n).last
    requires RecOf(s', n).key == k
    ensures NewestFirst(s', b) && NewestFirst(s', [n] + b)
  {
    var r := [n] + b;
    forall i, j | 0 <= i < j < |r| && RecOf(s', r[i]).key == RecOf(s', r[j]).key
      ensures RecOf(s', r[j]).last + EXPIRATION_FLOW_TIME < RecOf(s', r[i]).last
    {
      assert r[j] == b[j - 1];
      if i > 0 {
        assert r[i] == b[i - 1];
      }
    }
  }

  lemma JoinRest(s: State)
    requires Books(s) && Control(s) && s.pc.SecondNode? && |s.nodeFree| > 1
    requires s.nodeFree[0] < |s.node|
    requires s.epc.Exported? ==> s.epc.n != s.nodeFree[0]
    ensures Books(Joined(s)) && Control(Joined(s))
  {
  }

  lemma JoinKeeps(s: State, o: Own) returns (o': Own)
    requires Inv(s, o) && s.pc.SecondNode?
    ensures |s.nodeFree| > 1 && s.aux.Some?
    ensures Inv(Joined(s), o')
  {
    PoolSuffices(s);
    JoinPlaces(s, o);
    o' := OwnJoined(s, o);
    JoinNodes(s, o);
    JoinSessions(s, o);
    JoinLinks(s, o);
    JoinTimeline(s, o);
    JoinBuckets(s, o);
    if s.epc.Exported? {
      HandIsNotFree(s, o);
    }
    JoinRest(s);
  }
}
