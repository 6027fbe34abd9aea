/** `insertFlow`: updating a live flow and opening a new one keep the invariant. */
module FlowInsert {
  import opened FlowTypes
  import opened Frames
  import opened Lists
  import opened FlowState
  import opened FlowInvariant
  import opened FlowFrames
  import opened FlowProcess
  import opened Sessionization

  // ---------------------------------------------------------------- update

  /** What `insertFlow` knows when it updates: hash node `h`, active node `a`, session `x`. */
  ghost predicate Updating(s: State, o: Own, k: Key, h: nat, a: nat, x: nat) {
    var b := Bucket(s, GetIndex(k));
    var i := FirstMatch(s, b, k);
    && s.pc.Filling?
    && i < |b| && h == b[i] && x == SessionOf(s, h) && a == Sess(s, x).activeNode
    && x < |o.sess| && o.sess[x] == SHeld && a in s.active && SessionOf(s, a) == x
    && RecOf(s, h).last <= s.now && RecOf(s, h).key == k
    && s.now - RecOf(s, h).last <= EXPIRATION_FLOW_TIME
  }

  lemma UpdateNodes(s: State, o: Own, k: Key, h: nat, a: nat, x: nat, p: Packet)
    requires NodeLists(s, o) && SessionLists(s, o) && Updating(s, o, k, h, a, x)
    ensures NodeLists(UpdateFlow(s, x, p), o) && SessionLists(UpdateFlow(s, x, p), o)
  {
    var s' := UpdateFlow(s, x, p);
    SessionListsFrame(s, s', o, o);
    forall pl: NodePlace
      ensures Tagged(NodesAt(s', pl), o.node, pl)
    {
      assert Tagged(NodesAt(s, pl), o.node, pl);
      if pl == NActive {
        TaggedTouch(s.active, a, o.node, NActive);
      }
    }
  }

  /** No other queued node's record changes. */
  lemma UpdateOthers(s: State, o: Own, k: Key, h: nat, a: nat, x: nat, p: Packet, m: nat, j: nat)
    requires Shapes(s, o) && NodeLists(s, o) && Links(s, o) && Updating(s, o, k, h, a, x)
    requires m < |s.active| && s.active[m] == a && j < |Queue(s)| && j != QueuePos(s, m)
    ensures RecOf(UpdateFlow(s, x, p), Queue(s)[j]) == RecOf(s, Queue(s)[j])
  {
    QueueIsOuter(s, o, j);
    QueueOnce(s, o, m, j);
    assert OuterLinked(s, o, Queue(s)[j]);
  }

  lemma UpdateOwn(s: State, o: Own, k: Key, h: nat, a: nat, x: nat, p: Packet)
    requires Shapes(s, o) && Updating(s, o, k, h, a, x) && p.key == k
    requires RecOf(s, a) == RecOf(s, h)
    ensures RecOf(UpdateFlow(s, x, p), a) == Bumped(RecOf(s, a), p)
  {
  }

  lemma UpdateQueue(s: State, x: nat, p: Packet, m: nat)
    requires m < |s.active| && IndexOf(s.active, s.active[m]) == m && Sess(s, x).activeNode == s.active[m]
    ensures Queue(UpdateFlow(s, x, p)) == RemoveAt(Queue(s), QueuePos(s, m)) + [s.active[m]]
  {
    var outer := (if s.epc.Popped? then [s.epc.n] else []) + s.expired + s.flags;
    TouchAfter(outer, s.active, m, [s.active[m]] + RemoveAt(s.active, m));
  }

  lemma TouchAfter<T>(outer: seq<T>, s: seq<T>, m: nat, t: seq<T>)
    requires m < |s| && t == [s[m]] + RemoveAt(s, m)
    ensures outer + Reverse(t) == RemoveAt(outer + Reverse(s), |outer| + |s| - 1 - m) + [s[m]]
  {
    ReverseTouch(s, m);
    RemoveAfter(outer, Reverse(s), |s| - 1 - m, s[m]);
  }

  lemma RemoveAfter<T>(a: seq<T>, b: seq<T>, i: nat, x: T)
    requires i < |b|
    ensures RemoveAt(a + b, |a| + i) + [x] == a + (RemoveAt(b, i) + [x])
  {
  }

  lemma TouchedRecords(s: State, s': State, pos: nat)
    requires pos < |Queue(s)| && s'.log == s.log
    requires Queue(s') == RemoveAt(Queue(s), pos) + [Queue(s)[pos]]
    requires forall j :: 0 <= j < |Queue(s)| && j != pos ==> RecOf(s', Queue(s)[j]) == RecOf(s, Queue(s)[j])
    ensures Records(s)[|s.log| + pos] == RecOf(s, Queue(s)[pos])
    ensures Records(s') == RemoveAt(Records(s), |s.log| + pos) + [RecOf(s', Queue(s)[pos])]
  {
  }

  /** The updated record moves to the end of the records; the others keep their order. */
  lemma UpdateRecords(s: State, o: Own, k: Key, h: nat, a: nat, x: nat, p: Packet) returns (i: nat)
    requires Shapes(s, o) && NodeLists(s, o) && Links(s, o) && Updating(s, o, k, h, a, x)
    requires p.key == k
    ensures |Records(s)| - |s.active| <= i < |Records(s)| && Records(s)[i] == RecOf(s, a)
    ensures Records(UpdateFlow(s, x, p)) == RemoveAt(Records(s), i) + [Bumped(Records(s)[i], p)]
  {
    var m := IndexOf(s.active, a);
    i := |s.log| + QueuePos(s, m);
    UpdateQueue(s, x, p, m);
    forall j | 0 <= j < |Queue(s)| && j != QueuePos(s, m)
      ensures RecOf(UpdateFlow(s, x, p), Queue(s)[j]) == RecOf(s, Queue(s)[j])
    {
      UpdateOthers(s, o, k, h, a, x, p, m, j);
    }
    UpdateOwn(s, o, k, h, a, x, p);
    TouchedRecords(s, UpdateFlow(s, x, p), QueuePos(s, m));
  }

  lemma QueueOnce(s: State, o: Own, m: nat, i: nat)
    requires NodeLists(s, o) && m < |s.active| && i < |Queue(s)| && i != QueuePos(s, m)
    ensures Queue(s)[i] != s.active[m]
  {
    var n := Queue(s)[i];
    assert Tagged(NodesAt(s, NActive), o.node, NActive);
    assert Tagged(NodesAt(s, NFlags), o.node, NFlags);
    assert Tagged(NodesAt(s, NExpired), o.node, NExpired);
    assert Tagged(NodesAt(s, NExporter), o.node, NExporter);
    var hand := if s.epc.Popped? then [s.epc.n] else [];
    var k := |hand| + |s.expired| + |s.flags|;
    if i < |hand| {
      assert HandNodes(s)[0] == n;
    } else if i < |hand| + |s.expired| {
      assert n == s.expired[i - |hand|];
    } else if i < k {
      assert n == s.flags[i - |hand| - |s.expired|];
    } else {
      assert n == s.active[|s.active| - 1 - (i - k)];
    }
  }

  lemma LiveIsNotNewer(s: State, o: Own, k: Key, h: nat, a: nat, x: nat, j: nat)
    requires Shapes(s, o) && NodeLists(s, o) && Links(s, o) && Buckets(s) && Updating(s, o, k, h, a, x)
    requires |Records(s)| - |s.active| <= j < |Records(s)|
    ensures Records(s)[j].key == k ==> Records(s)[j].last <= RecOf(s, h).last
  {
    LiveRecord(s, j);
    var g, l := LiveNode(s, o, |Records(s)| - 1 - j);
    assert NewestFirst(s, Bucket(s, GetIndex(k)));
  }

  /** The record found is the newest of its key. */
  lemma FoundIsNewest(s: State, o: Own, k: Key, h: nat, a: nat, x: nat, i: nat)
    requires Shapes(s, o) && NodeLists(s, o) && Links(s, o) && Timeline(s) && Buckets(s)
    requires Updating(s, o, k, h, a, x)
    requires |Records(s)| - |s.active| <= i < |Records(s)| && Records(s)[i] == RecOf(s, a)
    ensures forall j :: i < j < |Records(s)| ==> Records(s)[j].key != k
  {
    assert RecOf(s, a) == RecOf(s, h);
    forall j: nat | i < j < |Records(s)|
      ensures Records(s)[j].key != k
    {
      LiveIsNotNewer(s, o, k, h, a, x, j);
    }
  }

  lemma UpdateTimeline(s: State, o: Own, k: Key, h: nat, a: nat, x: nat, p: Packet)
    requires Shapes(s, o) && NodeLists(s, o) && Links(s, o) && Timeline(s) && Buckets(s)
    requires Updating(s, o, k, h, a, x) && p.key == k && p.ts == s.now
    requires s.now + EXPIRATION_FLOW_TIME < INFINITE_TIME
    ensures Timeline(UpdateFlow(s, x, p))
  {
    var i := UpdateRecords(s, o, k, h, a, x, p);
    FoundIsNewest(s, o, k, h, a, x, i);
    UpdateHistory(Records(s), |Records(s)| - |s.active|, s.accepted, i, p);
    assert |UpdateFlow(s, x, p).active| == |s.active|;
  }

  /** The parts of `Timeline`. */
  ghost predicate History(rs: seq<Rec>, dead: int, ps: seq<Packet>, now: nat) {
    Ordered(rs, dead, now) && BeforeTheEnd(rs) && Sessionized(rs, ps) && Conserved(rs, ps)
  }

  lemma UpdateHistory(rs: seq<Rec>, dead: int, ps: seq<Packet>, i: nat, p: Packet)
    requires History(rs, dead, ps, p.ts) && dead <= i < |rs| && rs[i].key == p.key
    requires forall j :: i < j < |rs| ==> rs[j].key != p.key
    requires p.ts - rs[i].last <= EXPIRATION_FLOW_TIME && p.ts + EXPIRATION_FLOW_TIME < INFINITE_TIME
    ensures History(RemoveAt(rs, i) + [Bumped(rs[i], p)], dead, ps + [p], p.ts)
  {
    AcceptUpdating(rs, i, ps, p);
    ConserveUpdating(rs, i, ps, p);
    OrderedUpdate(rs, dead, i, p);
  }

  lemma UpdateBuckets(s: State, o: Own, k: Key, h: nat, a: nat, x: nat, p: Packet)
    requires Shapes(s, o) && NodeLists(s, o) && Links(s, o) && Buckets(s)
    requires Updating(s, o, k, h, a, x) && p.ts == s.now
    ensures Buckets(UpdateFlow(s, x, p))
  {
    var s' := UpdateFlow(s, x, p);
    forall c | 0 <= c < MAX_FLOW_TABLE_SIZE
      ensures NewestFirst(s', Bucket(s', c))
    {
      var b := Bucket(s, c);
      assert NewestFirst(s, b);
      forall j | 0 <= j < |b|
        ensures b[j] != h ==> RecOf(s', b[j]) == RecOf(s, b[j])
        ensures b[j] == h ==> c == GetIndex(k) && j == FirstMatch(s, b, k)
        ensures RecOf(s', h).key == k && RecOf(s', h).last == s.now
      {
        BucketIsTagged(s, o, c, j);
        assert HashLinked(s, o, b[j]);
        BucketIsTagged(s, o, GetIndex(k), FirstMatch(s, Bucket(s, GetIndex(k)), k));
        assert HashLinked(s, o, h);
        assert Tagged(NodesAt(s, NBucket(c)), o.node, NBucket(c));
      }
    }
  }

  lemma UpdateRest(s: State, o: Own, k: Key, h: nat, a: nat, x: nat, p: Packet)
    requires Shapes(s, o) && Links(s, o) && Books(s) && Control(s) && Updating(s, o, k, h, a, x)
    ensures Shapes(UpdateFlow(s, x, p), o) && Links(UpdateFlow(s, x, p), o)
    ensures Books(UpdateFlow(s, x, p)) && Control(UpdateFlow(s, x, p))
  {
    LinksFrame(s, UpdateFlow(s, x, p), o, o);
  }

  lemma UpdateKeeps(s: State, o: Own, k: Key, h: nat, a: nat, x: nat, p: Packet)
    requires Inv(s, o) && Updating(s, o, k, h, a, x) && p.key == k && p.ts == s.now
    ensures Inv(UpdateFlow(s, x, p), o)
  {
    UpdateNodes(s, o, k, h, a, x, p);
    UpdateTimeline(s, o, k, h, a, x, p);
    UpdateBuckets(s, o, k, h, a, x, p);
    UpdateRest(s, o, k, h, a, x, p);
  }
}
