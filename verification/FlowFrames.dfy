/** What one step leaves alone. Each lemma carries one part of the invariant over a step that does
    not concern it. */
module FlowFrames {
  import opened FlowTypes
  import opened Lists
  import opened FlowState
  import opened FlowInvariant
  import opened Sessionization

  lemma MoveNode(s: State, s': State, o: Own, n: nat, from: NodePlace, to: NodePlace)
    requires NodeLists(s, o) && from != to && n in NodesAt(s, from)
    requires NodesAt(s', from) == Unlink(NodesAt(s, from), n)
    requires NodesAt(s', to) == [n] + NodesAt(s, to) || NodesAt(s', to) == NodesAt(s, to) + [n]
    requires forall pl: NodePlace :: pl != from && pl != to ==> NodesAt(s', pl) == NodesAt(s, pl)
    ensures n < |o.node| && o.node[n] == from
    ensures NodeLists(s', o.(node := o.node[n := to]))
  {
    assert Tagged(NodesAt(s, from), o.node, from);
    assert Tagged(NodesAt(s, to), o.node, to);
    forall pl: NodePlace
      ensures Tagged(NodesAt(s', pl), o.node[n := to], pl)
    {
      assert Tagged(NodesAt(s, pl), o.node, pl);
      if pl == from {
        TaggedAway(NodesAt(s, from), n, o.node, from, to);
      } else if pl == to {
        TaggedInto(NodesAt(s, to), NodesAt(s', to), n, o.node, to);
      } else {
        TaggedOther(NodesAt(s, pl), n, o.node, to, pl);
      }
    }
  }

  lemma NodeListsFrame(s: State, s': State, o: Own)
    requires NodeLists(s, o)
    requires forall pl: NodePlace :: NodesAt(s', pl) == NodesAt(s, pl)
    ensures NodeLists(s', o)
  {
    forall pl: NodePlace
      ensures Tagged(NodesAt(s', pl), o.node, pl)
    {
      assert Tagged(NodesAt(s, pl), o.node, pl);
    }
  }

  lemma SessionListsFrame(s: State, s': State, o: Own, o': Own)
    requires SessionLists(s, o) && o'.sess == o.sess
    requires s'.wrapData == s.wrapData && s'.sessFree == s.sessFree && AuxSessions(s') == AuxSessions(s)
    ensures SessionLists(s', o')
  {
    assert FreeSessions(s') == FreeSessions(s);
  }

  lemma LinksFrame(s: State, s': State, o: Own, o': Own)
    requires Links(s, o)
    requires s'.node == s.node && o'.sess == o.sess && |o'.node| == |o.node|
    requires forall n: nat :: Outer(s', o', n) <==> Outer(s, o, n)
    requires forall n :: 0 <= n < |o.node| ==> (o'.node[n] == NActive <==> o.node[n] == NActive)
    requires forall n :: 0 <= n < |o.node| && (o.node[n].NBucket? || o'.node[n].NBucket?) ==>
      o'.node[n] == o.node[n]
    requires forall x :: 0 <= x < |o.sess| && o.sess[x] == SHeld ==>
      Sess(s', x).activeNode == Sess(s, x).activeNode && Sess(s', x).key == Sess(s, x).key
    ensures Links(s', o')
  {
    forall n | Outer(s', o', n)
      ensures OuterLinked(s', o', n)
    {
      assert OuterLinked(s, o, n);
    }
    forall h | 0 <= h < |o'.node| && o'.node[h].NBucket?
      ensures HashLinked(s', o', h)
    {
      assert HashLinked(s, o, h);
    }
    forall x | 0 <= x < |o'.sess| && o'.sess[x] == SHeld
      ensures SessionLinked(s', o', x)
    {
      assert SessionLinked(s, o, x);
    }
  }

  /** As `LinksFrame`, when only sessions that are not held change place. */
  lemma LinksFrameSame(s: State, s': State, o: Own, o': Own)
    requires Links(s, o) && s'.node == s.node && s'.sess == s.sess && s'.epc == s.epc
    requires o'.node == o.node && |o'.sess| == |o.sess|
    requires forall x :: 0 <= x < |o.sess| ==> (o'.sess[x] == SHeld <==> o.sess[x] == SHeld)
    ensures Links(s', o')
  {
    forall n | Outer(s', o', n)
      ensures OuterLinked(s', o', n)
    {
      assert OuterLinked(s, o, n);
    }
    forall h | 0 <= h < |o'.node| && o'.node[h].NBucket?
      ensures HashLinked(s', o', h)
    {
      assert HashLinked(s, o, h);
    }
    forall x | 0 <= x < |o'.sess| && o'.sess[x] == SHeld
      ensures SessionLinked(s', o', x)
    {
      assert SessionLinked(s, o, x);
    }
  }

  /** As `LinksFrame`, when session `gone` and the node it was reached through leave. */
  lemma LinksFrameBut(s: State, s': State, o: Own, o': Own, gone: nat)
    requires Links(s, o) && gone < |o.sess| && o.sess[gone] == SHeld
    requires var m := Sess(s, gone).activeNode;
      forall n: nat :: (Outer(s', o', n) <==> Outer(s, o, n) && n != m)
    requires SessionOf(s, Sess(s, gone).activeNode) == gone
    requires !(Sess(s, gone).activeNode < |o.node| && o.node[Sess(s, gone).activeNode] == NActive)
    requires s'.node == s.node && |o'.sess| == |o.sess| && o'.node == o.node && o'.sess == o.sess[gone := SFree]
    requires forall x :: 0 <= x < |o.sess| && o.sess[x] == SHeld && x != gone ==>
      Sess(s', x).activeNode == Sess(s, x).activeNode && Sess(s', x).key == Sess(s, x).key
    ensures Links(s', o')
  {
    forall n | Outer(s', o', n)
      ensures OuterLinked(s', o', n)
    {
      assert OuterLinked(s, o, n);
    }
    forall h | 0 <= h < |o'.node| && o'.node[h].NBucket?
      ensures HashLinked(s', o', h)
    {
      assert HashLinked(s, o, h);
    }
    forall x | 0 <= x < |o'.sess| && o'.sess[x] == SHeld
      ensures SessionLinked(s', o', x)
    {
      assert SessionLinked(s, o, x);
      assert SessionLinked(s, o, gone);
    }
  }

  lemma RecsAtFrame(s: State, s': State, ns: seq<nat>)
    requires forall i :: 0 <= i < |ns| ==> RecOf(s', ns[i]) == RecOf(s, ns[i])
    ensures RecsAt(s', ns) == RecsAt(s, ns)
  {
  }

  lemma RecsAtConcat(s: State, ms: seq<nat>, ns: seq<nat>)
    ensures RecsAt(s, ms + ns) == RecsAt(s, ms) + RecsAt(s, ns)
  {
  }

  lemma TimelineFrame(s: State, s': State)
    requires Timeline(s)
    requires Records(s') == Records(s)
    requires |s'.active| == |s.active| && s'.now == s.now && s'.accepted == s.accepted
    ensures Timeline(s')
  {
  }

  lemma BucketsFrame(s: State, s': State)
    requires Buckets(s) && s'.table == s.table
    requires forall i, j :: 0 <= i < MAX_FLOW_TABLE_SIZE && 0 <= j < |Bucket(s, i)| ==>
      RecOf(s', Bucket(s, i)[j]) == RecOf(s, Bucket(s, i)[j])
    ensures Buckets(s')
  {
    forall i | 0 <= i < MAX_FLOW_TABLE_SIZE
      ensures NewestFirst(s', Bucket(s', i))
    {
      assert NewestFirst(s, Bucket(s, i));
    }
  }

  // ---------------------------------------------------------------- where the records are

  /** A node of the queue is outer; a node of a bucket is tagged with its bucket. */
  lemma QueueIsOuter(s: State, o: Own, i: nat)
    requires NodeLists(s, o) && i < |Queue(s)|
    ensures Outer(s, o, Queue(s)[i])
  {
    var n := Queue(s)[i];
    assert Tagged(NodesAt(s, NActive), o.node, NActive);
    assert Tagged(NodesAt(s, NFlags), o.node, NFlags);
    assert Tagged(NodesAt(s, NExpired), o.node, NExpired);
    assert Tagged(NodesAt(s, NExporter), o.node, NExporter);
    var hand := if s.epc.Popped? then [s.epc.n] else [];
    var k := |hand| + |s.expired| + |s.flags|;
    if i < |hand| {
      assert HandNodes(s)[0] == n;
    } else if i < |hand| + |s.expired| {
      assert n == s.expired[i - |hand|];
    } else if i < k {
      assert n == s.flags[i - |hand| - |s.expired|];
    } else {
      assert n == s.active[|s.active| - 1 - (i - k)];
    }
  }

  lemma PlaceIsListed(s: State, o: Own, n: nat)
    requires NodeLists(s, o) && n < |o.node|
    ensures n in NodesAt(s, o.node[n])
  {
    assert Tagged(NodesAt(s, o.node[n]), o.node, o.node[n]);
  }

  lemma BucketIsTagged(s: State, o: Own, i: nat, j: nat)
    requires NodeLists(s, o) && j < |Bucket(s, i)|
    ensures Bucket(s, i)[j] < |o.node| && o.node[Bucket(s, i)[j]] == NBucket(i)
  {
    assert Tagged(NodesAt(s, NBucket(i)), o.node, NBucket(i));
  }

  // ---------------------------------------------------------------- the order of the records

  lemma OrderedLater(recs: seq<Rec>, dead: int, now: nat, later: nat)
    requires Ordered(recs, dead, now) && now <= later
    ensures Ordered(recs, dead, later)
  {
  }

  lemma OrderedOpen(recs: seq<Rec>, dead: int, p: Packet)
    requires Ordered(recs, dead, p.ts) && AllExpired(recs, p.key, p.ts)
    ensures Ordered(recs + [Opened(p)], dead, p.ts)
  {
  }

  lemma OrderedUpdate(recs: seq<Rec>, dead: int, i: nat, p: Packet)
    requires Ordered(recs, dead, p.ts) && dead <= i < |recs| && recs[i].key == p.key
    requires forall j :: i < j < |recs| ==> recs[j].key != p.key
    ensures Ordered(RemoveAt(recs, i) + [Bumped(recs[i], p)], dead, p.ts)
  {
    var r := RemoveAt(recs, i) + [Bumped(recs[i], p)];
    forall j, k | 0 <= j < k < |r|
      ensures r[j].last <= r[k].last
      ensures r[j].key == r[k].key ==> r[j].last + EXPIRATION_FLOW_TIME < r[k].last
    {
      var j0 := if j < i then j else j + 1;
      assert r[j] == recs[j0];
      if k < |r| - 1 {
        assert r[k] == recs[if k < i then k else k + 1];
      }
    }
  }

  // ---------------------------------------------------------------- steps that move nothing

  /** Sessions that are not held may be written: no record changes. */
  lemma HeldRecords(s: State, s': State, o: Own)
    requires NodeLists(s, o) && Links(s, o)
    requires s'.node == s.node && s'.table == s.table && s'.log == s.log && Queue(s') == Queue(s)
    requires forall x :: 0 <= x < |o.sess| && o.sess[x] == SHeld ==> Sess(s', x) == Sess(s, x)
    ensures Records(s') == Records(s)
    ensures Buckets(s) ==> Buckets(s')
  {
    forall i | 0 <= i < |Queue(s)|
      ensures RecOf(s', Queue(s)[i]) == RecOf(s, Queue(s)[i])
    {
      QueueIsOuter(s, o, i);
      assert OuterLinked(s, o, Queue(s)[i]);
    }
    RecsAtFrame(s, s', Queue(s));
    if Buckets(s) {
      forall i, j | 0 <= i < MAX_FLOW_TABLE_SIZE && 0 <= j < |Bucket(s, i)|
        ensures RecOf(s', Bucket(s, i)[j]) == RecOf(s, Bucket(s, i)[j])
      {
        BucketIsTagged(s, o, i, j);
        assert HashLinked(s, o, Bucket(s, i)[j]);
      }
      BucketsFrame(s, s');
    }
  }

  lemma TimelineLater(s: State, s': State)
    requires Timeline(s)
    requires Records(s') == Records(s)
    requires |s'.active| == |s.active| && s.now <= s'.now && s'.accepted == s.accepted
    ensures Timeline(s')
  {
    OrderedLater(Records(s), |Records(s)| - |s.active|, s.now, s'.now);
  }

  /** A step that moves no node and no wrapper, and writes no held session. */
  ghost predicate Quiet(s: State, s': State, o: Own) {
    && s'.node == s.node && s'.table == s.table && s'.active == s.active && s'.flags == s.flags
    && s'.expired == s.expired && s'.nodeFree == s.nodeFree && s'.nodeUsed == s.nodeUsed
    && s'.wrapData == s.wrapData && s'.sessFree == s.sessFree && s'.sessUsed == s.sessUsed
    && s'.epc == s.epc && s'.accepted == s.accepted && s'.log == s.log && s.now <= s'.now
    && ProcessNodes(s') == ProcessNodes(s) && AuxSessions(s') == AuxSessions(s)
    && |s'.sess| == |s.sess|
    && (forall x :: 0 <= x < |o.sess| && o.sess[x] == SHeld ==> Sess(s', x) == Sess(s, x))
  }

  lemma QuietPlaces(s: State, s': State, o: Own)
    requires Shapes(s, o) && NodeLists(s, o) && SessionLists(s, o) && Links(s, o) && Quiet(s, s', o)
    ensures Shapes(s', o) && NodeLists(s', o) && SessionLists(s', o) && Links(s', o)
  {
    NodeListsFrame(s, s', o);
    SessionListsFrame(s, s', o, o);
    LinksFrame(s, s', o, o);
  }

  lemma QuietRecords(s: State, s': State, o: Own)
    requires NodeLists(s, o) && Links(s, o) && Timeline(s) && Buckets(s) && Quiet(s, s', o)
    ensures Records(s') == Records(s) && Timeline(s') && Buckets(s')
  {
    assert Queue(s') == Queue(s);
    HeldRecords(s, s', o);
    TimelineLater(s, s');
  }

  lemma QuietBooks(s: State, s': State, o: Own)
    requires Books(s) && Quiet(s, s', o) && Clocks(s')
    ensures Books(s')
  {
  }

  lemma QuietKeeps(s: State, s': State, o: Own)
    requires Inv(s, o) && Quiet(s, s', o)
    requires Clocks(s') && (Records(s') == Records(s) ==> Control(s'))
    ensures Inv(s', o)
  {
    QuietPlaces(s, s', o);
    QuietRecords(s, s', o);
    QuietBooks(s, s', o);
  }
}
