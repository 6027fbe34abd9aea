/** `cleanup_flows` and the arrival of a packet keep the invariant. */
module FlowCleanup {
  import opened FlowTypes
  import opened Frames
  import opened Lists
  import opened FlowState
  import opened FlowInvariant
  import opened FlowFrames
  import opened FlowProcess
  import opened Sessionization

  // ---------------------------------------------------------------- one expired flow

  function Tail(s: State): nat
    requires s.active != []
  {
    s.active[|s.active| - 1]
  }

  /** The tail of the active list and the hash node `h` it points at. */
  ghost predicate Expiring(s: State, o: Own, h: nat) {
    && s.active != []
    && var a := Tail(s);
    && a < |o.node| && o.node[a] == NActive && Data(s, a) == ToNode(h)
    && h < |o.node| && o.node[h] == NBucket(GetIndex(RecOf(s, a).key))
    && Data(s, h) == ToSession(SessionOf(s, a))
    && h in Bucket(s, GetIndex(RecOf(s, a).key))
  }

  lemma ExpiringHolds(s: State, o: Own) returns (h: nat)
    requires Shapes(s, o) && NodeLists(s, o) && Links(s, o) && s.active != []
    ensures Expiring(s, o, h) && h == Target(Data(s, Tail(s)))
  {
    var g, j := LiveNode(s, o, |s.active| - 1);
    h := Target(Data(s, Tail(s)));
    assert Tagged(NodesAt(s, NActive), o.node, NActive);
    PlaceIsListed(s, o, h);
  }

  function Retired(s: State): State
    requires s.active != []
  {
    s.(active := Unlink(s.active, Tail(s)), flags := s.flags + [Tail(s)])
  }

  lemma RetireActive(s: State, o: Own)
    requires NodeLists(s, o) && s.active != []
    ensures Tail(s) < |o.node|
    ensures NodeLists(Retired(s), o.(node := o.node[Tail(s) := NFlags]))
  {
    assert s.active[|s.active| - 1] == Tail(s);
    assert Retired(s).active == Unlink(s.active, Tail(s)) && Retired(s).flags == s.flags + [Tail(s)];
    MoveNode(s, Retired(s), o, Tail(s), NActive, NFlags);
  }

  lemma RetireHash(t: State, s': State, o: Own, h: nat, i: nat)
    requires NodeLists(t, o) && i < |t.table| && h in Bucket(t, i) && h < |o.node|
    requires s'.table == Put(t.table, i, Unlink(Bucket(t, i), h)) && s'.nodeFree == t.nodeFree + [h]
    requires s'.active == t.active && s'.flags == t.flags && s'.expired == t.expired
    requires s'.epc == t.epc && s'.pc == t.pc
    ensures NodeLists(s', o.(node := o.node[h := NFree]))
  {
    MoveNode(t, s', o, h, NBucket(i), NFree);
  }

  ghost function OwnExpired(s: State, o: Own, h: nat): Own
    requires Expiring(s, o, h)
  {
    o.(node := o.node[Tail(s) := NFlags][h := NFree])
  }

  lemma ExpireNodes(s: State, o: Own, h: nat)
    requires Shapes(s, o) && NodeLists(s, o) && Expiring(s, o, h) && s.nodeUsed > 0
    ensures NodeLists(ExpireTail(s), OwnExpired(s, o, h))
  {
    RetireActive(s, o);
    RetireHash(Retired(s), ExpireTail(s), o.(node := o.node[Tail(s) := NFlags]), h,
               GetIndex(RecOf(s, Tail(s)).key));
  }

  lemma ExpireOuter(s: State, o: Own, h: nat, n: nat)
    requires Shapes(s, o) && Links(s, o) && Expiring(s, o, h) && Outer(s, o, n)
    ensures OuterLinked(ExpireTail(s), OwnExpired(s, o, h), n)
  {
    assert OuterLinked(s, o, n);
    assert OuterLinked(s, o, Tail(s));
  }

  lemma ExpireHash(s: State, o: Own, h: nat, g: nat)
    requires Shapes(s, o) && Links(s, o) && Expiring(s, o, h)
    requires g < |o.node| && g != h && o.node[g].NBucket?
    ensures HashLinked(ExpireTail(s), OwnExpired(s, o, h), g)
  {
    assert HashLinked(s, o, g);
  }

  lemma ExpireSession(s: State, o: Own, h: nat, x: nat)
    requires Shapes(s, o) && Links(s, o) && Expiring(s, o, h) && x < |o.sess| && o.sess[x] == SHeld
    ensures SessionLinked(ExpireTail(s), OwnExpired(s, o, h), x)
  {
    assert SessionLinked(s, o, x);
    assert OuterLinked(s, o, Sess(s, x).activeNode);
  }

  lemma ExpireLinks(s: State, o: Own, h: nat)
    requires Shapes(s, o) && Links(s, o) && Expiring(s, o, h)
    ensures Links(ExpireTail(s), OwnExpired(s, o, h))
  {
    var s', o' := ExpireTail(s), OwnExpired(s, o, h);
    forall n: nat | Outer(s', o', n)
      ensures OuterLinked(s', o', n)
    {
      ExpireOuter(s, o, h, n);
    }
    forall g: nat | g < |o'.node| && o'.node[g].NBucket?
      ensures HashLinked(s', o', g)
    {
      ExpireHash(s, o, h, g);
    }
    forall x: nat | x < |o'.sess| && o'.sess[x] == SHeld
      ensures SessionLinked(s', o', x)
    {
      ExpireSession(s, o, h, x);
    }
  }

  lemma ExpireSame(s: State, o: Own, h: nat, n: nat)
    requires Shapes(s, o) && Links(s, o) && Expiring(s, o, h)
    requires Outer(s, o, n) || (n < |o.node| && o.node[n].NBucket?)
    ensures RecOf(ExpireTail(s), n) == RecOf(s, n)
  {
    if Outer(s, o, n) {
      assert OuterLinked(s, o, n);
    } else {
      assert HashLinked(s, o, n);
    }
  }

  lemma ExpireQueue(s: State, o: Own)
    requires NodeLists(s, o) && s.active != []
    ensures Queue(ExpireTail(s)) == Queue(s)
  {
    assert Tagged(NodesAt(s, NActive), o.node, NActive);
    var rest, head := s.active[..|s.active| - 1], (if s.epc.Popped? then [s.epc.n] else []) + s.expired;
    assert ExpireTail(s).active == rest by {
      UnlinkLast(s.active);
    }
    assert s.active == rest + [Tail(s)];
    ReverseSnoc(rest, Tail(s));
    MoveAcross(head, s.flags, Tail(s), Reverse(rest));
  }

  lemma MoveAcross<T>(a: seq<T>, b: seq<T>, x: T, c: seq<T>)
    ensures a + (b + [x]) + c == a + b + ([x] + c)
  {
  }

  lemma ExpireRecords(s: State, o: Own, h: nat)
    requires Shapes(s, o) && NodeLists(s, o) && Links(s, o) && Expiring(s, o, h)
    ensures Records(ExpireTail(s)) == Records(s)
  {
    var s' := ExpireTail(s);
    ExpireQueue(s, o);
    forall i | 0 <= i < |Queue(s)|
      ensures RecOf(s', Queue(s)[i]) == RecOf(s, Queue(s)[i])
    {
      QueueIsOuter(s, o, i);
      ExpireSame(s, o, h, Queue(s)[i]);
    }
    RecsAtFrame(s, s', Queue(s));
  }

  /** The tail is the oldest live record, so one more record is off the table, and beyond the limit. */
  lemma ExpireTimeline(s: State, o: Own, h: nat)
    requires Shapes(s, o) && NodeLists(s, o) && Links(s, o) && Expiring(s, o, h)
    requires Timeline(s) && TailExpired(s)
    ensures Timeline(ExpireTail(s))
  {
    ExpireRecords(s, o, h);
    LiveRecord(s, |Records(s)| - |s.active|);
  }

  lemma ExpireBucket(s: State, o: Own, h: nat, c: nat)
    requires Shapes(s, o) && NodeLists(s, o) && Links(s, o) && Expiring(s, o, h)
    requires NewestFirst(s, Bucket(s, c))
    ensures NewestFirst(ExpireTail(s), Bucket(s, c))
    ensures NewestFirst(ExpireTail(s), Unlink(Bucket(s, c), h))
  {
    forall j: nat | j < |Bucket(s, c)|
      ensures RecOf(ExpireTail(s), Bucket(s, c)[j]) == RecOf(s, Bucket(s, c)[j])
    {
      BucketIsTagged(s, o, c, j);
      ExpireSame(s, o, h, Bucket(s, c)[j]);
    }
    UnlinkKeepsOrder(s, ExpireTail(s), Bucket(s, c), h);
  }

  lemma ExpireBuckets(s: State, o: Own, h: nat)
    requires Shapes(s, o) && NodeLists(s, o) && Links(s, o) && Buckets(s) && Expiring(s, o, h)
    ensures Buckets(ExpireTail(s))
  {
    forall c: nat | c < MAX_FLOW_TABLE_SIZE
      ensures NewestFirst(ExpireTail(s), Bucket(ExpireTail(s), c))
    {
      assert NewestFirst(s, Bucket(s, c));
      ExpireBucket(s, o, h, c);
      ExpireTable(s, h, c);
    }
  }

  lemma ExpireTable(s: State, h: nat, c: nat)
    requires s.active != [] && h == Target(Data(s, Tail(s)))
    ensures Bucket(ExpireTail(s), c) == Bucket(s, c) || Bucket(ExpireTail(s), c) == Unlink(Bucket(s, c), h)
  {
  }

  lemma UnlinkKeepsOrder(s: State, s': State, b: seq<nat>, h: nat)
    requires NewestFirst(s, b)
    requires forall j :: 0 <= j < |b| ==> RecOf(s', b[j]) == RecOf(s, b[j])
    ensures NewestFirst(s', b) && NewestFirst(s', Unlink(b, h))
  {
  }

  lemma ExpireRest(s: State, o: Own)
    requires Shapes(s, o) && Books(s) && Control(s) && s.pc.Cleaning? && s.active != []
    ensures s.nodeUsed > 0
    ensures |Unlink(s.active, Tail(s))| == |s.active| - 1
    ensures Books(ExpireTail(s))
  {
    var h := Target(Data(s, Tail(s)));
    var i := GetIndex(Sess(s, SessionOf(s, Tail(s))).key);
  }

  lemma ExpireControl(s: State, o: Own, h: nat)
    requires NodeLists(s, o) && Expiring(s, o, h)
    requires Control(s) && s.pc.Cleaning? && s.nodeUsed > 0
    ensures Control(ExpireTail(s))
  {
    if s.epc.Exported? {
      assert Tagged(NodesAt(s, NExporter), o.node, NExporter);
      assert HandNodes(s)[0] == s.epc.n;
    }
  }

  lemma ExpireKeeps(s: State, o: Own) returns (o': Own)
    requires Inv(s, o) && s.pc.Cleaning? && TailExpired(s)
    ensures Inv(ExpireTail(s), o')
  {
    var h := ExpiringHolds(s, o);
    o' := OwnExpired(s, o, h);
    ExpireRest(s, o);
    ExpireNodes(s, o, h);
    SessionListsFrame(s, ExpireTail(s), o, o');
    ExpireLinks(s, o, h);
    ExpireTimeline(s, o, h);
    ExpireBuckets(s, o, h);
    ExpireControl(s, o, h);
  }

  // ---------------------------------------------------------------- the splice

  /** The active list is sorted by last packet, so stopping at the first live flow leaves none behind. */
  lemma StopIsExact(s: State)
    requires Timeline(s) && s.now < U64 && !TailExpired(s)
    ensures forall i :: 0 <= i < |Records(s)| ==>
      (i < |Records(s)| - |s.active| <==> s.now - Records(s)[i].last > EXPIRATION_FLOW_TIME)
  {
    var recs, dead := Records(s), |Records(s)| - |s.active|;
    if s.active != [] {
      LiveRecord(s, dead);
    }
    forall i | dead <= i < |recs|
      ensures s.now - recs[i].last <= EXPIRATION_FLOW_TIME
    {
      assert recs[dead].last <= recs[i].last;
    }
  }

  ghost function OwnSpliced(o: Own): Own {
    o.(node := seq(|o.node|, i requires 0 <= i < |o.node| => if o.node[i] == NFlags then NExpired else o.node[i]))
  }

  lemma SpliceNodes(s: State, o: Own, next: Option<Frame>)
    requires NodeLists(s, o) && s.pc.Cleaning?
    ensures NodeLists(Splice(s, next), OwnSpliced(o))
  {
    var s', o' := Splice(s, next), OwnSpliced(o);
    assert Tagged(s.expired, o.node, NExpired) && Tagged(s.flags, o.node, NFlags) by {
      assert Tagged(NodesAt(s, NExpired), o.node, NExpired);
      assert Tagged(NodesAt(s, NFlags), o.node, NFlags);
    }
    SpliceTags(s.expired, s.flags, o);
    forall pl: NodePlace
      ensures Tagged(NodesAt(s', pl), o'.node, pl)
    {
      SpliceOther(s, o, next, pl);
    }
  }

  lemma SpliceOther(s: State, o: Own, next: Option<Frame>, pl: NodePlace)
    requires NodeLists(s, o) && s.pc.Cleaning?
    requires Tagged(s.expired + s.flags, OwnSpliced(o).node, NExpired) && Tagged([], OwnSpliced(o).node, NFlags)
    ensures Tagged(NodesAt(Splice(s, next), pl), OwnSpliced(o).node, pl)
  {
    if pl == NExpired {
      assert NodesAt(Splice(s, next), pl) == s.expired + s.flags;
    } else if pl == NFlags {
      assert NodesAt(Splice(s, next), pl) == [];
    } else {
      assert NodesAt(Splice(s, next), pl) == NodesAt(s, pl);
      assert Tagged(NodesAt(s, pl), o.node, pl);
      OwnSplicedAt(o, pl);
    }
  }

  lemma OwnSplicedAt(o: Own, pl: NodePlace)
    requires pl != NExpired && pl != NFlags
    ensures forall x :: 0 <= x < |o.node| ==> (OwnSpliced(o).node[x] == pl <==> o.node[x] == pl)
  {
  }


  lemma SpliceTags(expired: seq<nat>, flags: seq<nat>, o: Own)
    requires Tagged(expired, o.node, NExpired) && Tagged(flags, o.node, NFlags)
    ensures Tagged(expired + flags, OwnSpliced(o).node, NExpired)
    ensures Tagged([], OwnSpliced(o).node, NFlags)
  {
    forall x | 0 <= x < |o.node| && OwnSpliced(o).node[x] == NExpired
      ensures x in expired + flags
    {
      assert o.node[x] == NExpired ==> x in expired;
      assert o.node[x] == NFlags ==> x in flags;
    }
  }

  lemma SpliceLinks(s: State, o: Own, next: Option<Frame>)
    requires Links(s, o) && s.pc.Cleaning?
    ensures Links(Splice(s, next), OwnSpliced(o))
  {
    LinksFrame(s, Splice(s, next), o, OwnSpliced(o));
  }

  lemma SpliceRecords(s: State, next: Option<Frame>)
    ensures Records(Splice(s, next)) == Records(s)
  {
    assert Queue(Splice(s, next)) == Queue(s);
    RecsAtFrame(s, Splice(s, next), Queue(s));
  }

  lemma SpliceBooks(s: State)
    requires Books(s) && Control(s) && s.pc.Cleaning?
    requires s.pc.next.Some? ==> s.pc.next.value.Second() > 0
    ensures Books(Splice(s, s.pc.next))
  {
  }

  lemma SpliceControl(s: State)
    requires Timeline(s) && Clocks(s) && Control(s) && s.pc.Cleaning? && !TailExpired(s)
    ensures Control(Splice(s, s.pc.next))
  {
    if s.pc.next.None? && s.active != [] {
      LiveRecord(s, |Records(s)| - |s.active|);
    }
  }

  lemma SpliceRest(s: State)
    requires Books(s) && Buckets(s) && Timeline(s) && Control(s) && s.pc.Cleaning? && !TailExpired(s)
    requires s.pc.next.Some? ==> s.pc.next.value.Second() > 0
    ensures Books(Splice(s, s.pc.next)) && Buckets(Splice(s, s.pc.next)) && Control(Splice(s, s.pc.next))
  {
    SpliceBooks(s);
    BucketsFrame(s, Splice(s, s.pc.next));
    SpliceControl(s);
  }

  lemma SpliceKeeps(s: State, o: Own) returns (o': Own)
    requires Inv(s, o) && s.pc.Cleaning? && !TailExpired(s)
    requires s.pc.next.Some? ==> s.pc.next.value.Second() > 0
    ensures Inv(Splice(s, s.pc.next), o')
  {
    var s' := Splice(s, s.pc.next);
    o' := OwnSpliced(o);
    SpliceNodes(s, o, s.pc.next);
    SessionListsFrame(s, s', o, o');
    SpliceLinks(s, o, s.pc.next);
    SpliceRecords(s, s.pc.next);
    TimelineFrame(s, s');
    SpliceRest(s);
  }

  // ---------------------------------------------------------------- arrival and shutdown

  /** The stated environment: time does not go back, starts at one second or more, and stays clear of
      the value `reset_flow_table` uses for infinity. */
  ghost predicate InTime(s: State, f: Frame) {
    s.now <= f.Ts() && f.Second() >= 1 && f.Ts() + EXPIRATION_FLOW_TIME < INFINITE_TIME
  }

  /** The first packet finds nothing to wipe. */
  lemma FirstPacketWipesNothing(s: State, second: nat)
    requires |s.table| == MAX_FLOW_TABLE_SIZE && Clocks(s) && s.previous == 0
    ensures InitData(s, second) == s.(previous2 := s.previous, previous := second)
  {
    assert s.table == seq(MAX_FLOW_TABLE_SIZE, i => []);
  }

  lemma ArriveControl(s: State, f: Frame)
    requires |s.table| == MAX_FLOW_TABLE_SIZE && Clocks(s) && Control(s) && s.pc.Idle? && InTime(s, f)
    ensures Clocks(ArriveStep(s, f))
    ensures Records(ArriveStep(s, f)) == Records(s) ==> Control(ArriveStep(s, f))
    ensures forall o: Own :: |o.sess| == |s.sess| ==> Quiet(s, ArriveStep(s, f), o)
  {
    if s.previous == 0 {
      FirstPacketWipesNothing(s.(now := f.Ts()), f.Second());
    }
    SecondsMonotone(s.now, f.Ts());
  }

  lemma SecondsMonotone(a: nat, b: nat)
    requires a <= b
    ensures a / US_IN_SEC <= b / US_IN_SEC
  {
  }

  lemma ArriveKeeps(s: State, o: Own, f: Frame)
    requires Inv(s, o) && s.pc.Idle? && InTime(s, f)
    ensures Inv(ArriveStep(s, f), o)
  {
    ArriveControl(s, f);
    QuietKeeps(s, ArriveStep(s, f), o);
  }

  lemma ShutdownKeeps(s: State, o: Own)
    requires Inv(s, o) && s.pc.Idle?
    ensures Inv(StartCleanup(s.(now := INFINITE_TIME), None), o)
  {
    QuietKeeps(s, StartCleanup(s.(now := INFINITE_TIME), None), o);
  }
}
