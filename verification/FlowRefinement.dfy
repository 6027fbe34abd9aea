/** Each step on the linked structures is the step of the state machine, and keeps memory in step with it. */
module FlowRefinement {
  import opened FlowTypes
  import opened Frames
  import opened Lists
  import opened FlowState
  import opened FlowInvariant
  import opened FlowProcess
  import opened FlowOpen
  import opened FlowCleanup
  import opened FlowFrames
  import opened FlowMachine
  import opened FlowLinks
  import Rings

  // ---------------------------------------------------------------- reading through pointers

  lemma SameSession(m: Machine, s: State, n: nat)
    requires m.node == s.node && m.sess == s.sess
    ensures SessionAt(m.node, n) == SessionOf(s, n) && SessOf(m, n) == Sess(s, SessionOf(s, n))
  {
  }

  /** The tail is read without walking the list. */
  lemma TailAgrees(m: Machine, s: State)
    requires NodeRings(m, s) && m.node == s.node && m.sess == s.sess && m.now == s.now
    ensures Rings.Last(m.links, m.active) == if s.active == [] then None else Some(Tail(s))
    ensures TailIsExpired(m) == TailExpired(s)
  {
    assert NodesAt(s, NActive) == s.active && HeadAt(m, NActive) == m.active;
    Rings.LastIs(m.links, m.active, s.active);
    if s.active != [] {
      SameSession(m, s, Tail(s));
    }
  }

  lemma {:induction false} ShortList(b: seq<nat>, n: nat)
    requires NoDup(b) && forall i :: 0 <= i < |b| ==> b[i] < n
    ensures |b| <= n
    decreases n
  {
    if b != [] {
      assert b[0] < n;
      if n - 1 in b {
        ShortList(Unlink(b, n - 1), n - 1);
      } else {
        ShortList(b, n - 1);
      }
    }
  }

  /** Walking a ring with `list_search` finds the first match, or null when there is none. */
  lemma {:induction false} SearchAgrees(m: Machine, s: State, list: Ptr, b: seq<nat>, i: nat, k: Key, fuel: nat)
    requires Rings.Ring(m.links, list, b) && m.node == s.node && m.sess == s.sess
    requires i < |b| && |b| - i <= fuel + 1
    ensures Search(m, list, Some(b[i]), k, fuel) ==
      (if FirstMatch(s, b[i..], k) < |b| - i then Some(b[i + FirstMatch(s, b[i..], k)]) else None)
    decreases |b| - i
  {
    SameSession(m, s, b[i]);
    Rings.NextIs(m.links, list, b, i);
    assert b[i..][1..] == b[i + 1..];
    if CompareTupleFlow(SessOf(m, b[i]).key, k) != 0 {
      if i + 1 < |b| {
        SearchAgrees(m, s, list, b, i + 1, k, fuel - 1);
      } else {
        assert FirstMatch(s, b[i + 1..], k) == 0;
      }
    }
  }

  /** A list has at most as many nodes as there are. */
  lemma BucketIsShort(m: Machine, s: State, i: nat)
    requires NodeRings(m, s)
    ensures Rings.Ring(m.links, At(m.table, i, None), Bucket(s, i)) && |Bucket(s, i)| <= |s.node|
  {
    assert Rings.Ring(m.links, HeadAt(m, NBucket(i)), NodesAt(s, NBucket(i)));
    ShortList(Bucket(s, i), |s.node|);
  }

  lemma FoundAgrees(m: Machine, s: State, k: Key)
    requires NodeRings(m, s) && m.node == s.node && m.sess == s.sess
    ensures var b := Bucket(s, GetIndex(k));
      var i := FirstMatch(s, b, k);
      Found(m, k) == if i < |b| then Some(b[i]) else None
  {
    var c := NBucket(GetIndex(k));
    var b, list := NodesAt(s, c), HeadAt(m, c);
    assert Rings.Ring(m.links, list, b);
    ShortList(b, |m.node|);
    if b != [] {
      assert b[0..] == b;
      SearchAgrees(m, s, list, b, 0, k, |m.node|);
    }
  }

  // ---------------------------------------------------------------- cleanup

  lemma ExpiringRings(m: Machine, s: State, o: Own, n: nat, h: nat, i: nat, node: seq<Payload>)
    requires NodeRings(m, s) && NodeLists(s, o) && n in s.active && h in Bucket(s, i) && n < |s.node|
    ensures NodeRings(ToFlags(FromActive(GiveNode(FromBucket(m, i, h).(node := node), h), n), n),
      s.(table := Put(s.table, i, Unlink(Bucket(s, i), h)), active := Unlink(s.active, n), flags := s.flags + [n]))
  {
    ListsAreSeparate(s, o);
    var t := s.(table := Put(s.table, i, Unlink(Bucket(s, i), h)));
    FromBucketRings(m, s, i, h);
    var m1 := FromBucket(m, i, h);
    var m2 := GiveNode(m1.(node := node), h);
    SameRings(m1, m2, t, t);
    FromActiveRings(m2, t, n);
    ToFlagsRings(FromActive(m2, n), t.(active := Unlink(t.active, n)), n);
  }

  lemma ExpiringRefines(m: Machine, s: State, o: Own, wf: seq<nat>, wu: seq<nat>)
    requires Shapes(s, o) && NodeLists(s, o) && Links(s, o) && Refines(m, s, wf, wu) && s.active != []
    ensures Refines(Retiring(m, Tail(s)), ExpireTail(s), FreeAfterGive(wf, wu), UsedAfterGive(wu))
  {
    var n := Tail(s);
    var h := ExpiringHolds(s, o);
    var i := GetIndex(Sess(s, SessionOf(s, n)).key);
    SameSession(m, s, n);
    var node := Put(s.node, n, Data(s, h));
    ExpiringRings(m, s, o, n, h, i, node);
    var m1 := FromBucket(m, i, h).(node := node);
    var s1 := s.(table := Put(s.table, i, Unlink(Bucket(s, i), h)), node := node,
      active := Unlink(s.active, n), flags := s.flags + [n]);
    GiveNodeHolds(m1, s1, wf, wu, h);
    SameRings(Retiring(m, n), Retiring(m, n), s1.(node := s.node), ExpireTail(s));
  }

  lemma SplicingRefines(m: Machine, s: State, o: Own, wf: seq<nat>, wu: seq<nat>, next: Option<Frame>)
    requires NodeLists(s, o) && Refines(m, s, wf, wu)
    ensures Refines(Splicing(m, next), Splice(s, next), wf, wu)
  {
    ListsAreSeparate(s, o);
    SpliceRings(m, s);
    SameRings(SpliceFlags(m), Splicing(m, next), s.(expired := s.expired + s.flags, flags := []), Splice(s, next));
  }

  // ---------------------------------------------------------------- arrival and parsing

  lemma InitRefines(m: Machine, s: State, wf: seq<nat>, wu: seq<nat>, second: nat)
    requires Refines(m, s, wf, wu) && |s.table| == MAX_FLOW_TABLE_SIZE
    ensures Refines(InitMachine(m, second), InitData(s, second), wf, wu)
  {
    var m', s' := InitMachine(m, second), InitData(s, second);
    forall pl: NodePlace | IsList(pl)
      ensures Rings.Ring(m'.links, HeadAt(m', pl), NodesAt(s', pl))
    {
      assert NodesAt(s', pl) == [] && HeadAt(m', pl) == None;
    }
  }

  lemma BeginRefines(m: Machine, s: State, wf: seq<nat>, wu: seq<nat>, next: Option<Frame>)
    requires Refines(m, s, wf, wu)
    ensures Refines(BeginCleanup(m, next), StartCleanup(s, next), wf, wu)
  {
    assert Rings.Ring(m.links, HeadAt(m, NFlags), NodesAt(s, NFlags));
    SameRings(m, BeginCleanup(m, next), s, StartCleanup(s, next));
  }

  lemma MovesNothing(m: Machine, m': Machine, s: State, s': State, wf: seq<nat>, wu: seq<nat>)
    requires Refines(m, s, wf, wu) && SameRest(m', s') && |s'.node| == |s.node|
    requires m'.links == m.links && m'.table == m.table && m'.active == m.active && m'.flags == m.flags
    requires m'.expired == m.expired && m'.nodes == m.nodes && m'.sessions == m.sessions
    requires s'.table == s.table && s'.active == s.active && s'.flags == s.flags && s'.expired == s.expired
    requires s'.nodeFree == s.nodeFree && s'.nodeUsed == s.nodeUsed
    requires s'.wrapData == s.wrapData && s'.sessFree == s.sessFree && s'.sessUsed == s.sessUsed
    ensures Refines(m', s', wf, wu)
  {
    SameRings(m, m', s, s');
  }

  /** After the clocks are set. */
  lemma ArrivedRefines(m: Machine, s: State, wf: seq<nat>, wu: seq<nat>, f: Frame, m': Machine, s': State)
    requires Refines(m, s, wf, wu)
    requires m' == if m.previous < f.Second() then BeginCleanup(m, Some(f))
                   else if m.previous > f.Second() && m.previous2 < f.Second()
                   then m.(previous := m.previous2, pc := Parsing(f))
                   else m.(pc := Parsing(f))
    requires s' == if s.previous < f.Second() then StartCleanup(s, Some(f))
                   else if s.previous > f.Second() && s.previous2 < f.Second()
                   then s.(previous := s.previous2, pc := Parsing(f))
                   else s.(pc := Parsing(f))
    ensures Refines(m', s', wf, wu)
  {
    if m.previous < f.Second() {
      BeginRefines(m, s, wf, wu, Some(f));
    } else {
      MovesNothing(m, m', s, s', wf, wu);
    }
  }

  lemma ArrivingRefines(m: Machine, s: State, wf: seq<nat>, wu: seq<nat>, f: Frame)
    requires Refines(m, s, wf, wu) && |s.table| == MAX_FLOW_TABLE_SIZE
    ensures Refines(Arriving(m, f), ArriveStep(s, f), wf, wu)
  {
    var t, a := m.(now := f.Ts()), s.(now := f.Ts());
    MovesNothing(m, t, s, a, wf, wu);
    if a.previous == 0 {
      InitRefines(t, a, wf, wu, f.Second());
      ArrivedRefines(InitMachine(t, f.Second()), InitData(a, f.Second()), wf, wu, f, Arriving(m, f), ArriveStep(s, f));
    } else {
      ArrivedRefines(t, a, wf, wu, f, Arriving(m, f), ArriveStep(s, f));
    }
  }

  lemma ClearAgrees(m: Machine, s: State, x: nat)
    requires m.sess == s.sess
    ensures var v := Sess(s, x);
      ClearSession(m, x).sess
      == Put(s.sess, x, NO_SESSION.(first := v.first, last := v.last, activeNode := v.activeNode))
  {
  }

  lemma ParsingRefines(m: Machine, s: State, wf: seq<nat>, wu: seq<nat>, f: Frame)
    requires Refines(m, s, wf, wu)
    ensures Refines(StartParsing(m, f), ParsingStep(s, f), wf, wu)
  {
    var m', s' := StartParsing(m, f), ParsingStep(s, f);
    if f.caplen >= ETH_HLEN && m.aux.Some? {
      ClearAgrees(m, s, m.aux.value);
    }
    if f.caplen >= ETH_HLEN && m.aux.None? {
      TakeRings(m.sessions, s.sessFree, s.sessUsed);
    }
    SameRings(m, m', s, s');
  }

  // ---------------------------------------------------------------- insertFlow

  /** `insertFlow` when there is no live match. */
  function Missed(s: State, f: Frame, x: nat): State {
    if s.nodeFree == [] then s.(fault := true)
    else if |s.nodeFree| == 1 then s.(unprocessedFlows := s.unprocessedFlows + 1, pc := Idle)
    else s.(nodeFree := s.nodeFree[1..], nodeUsed := s.nodeUsed + 1,
            node := Put(s.node, s.nodeFree[0], ToSession(x)), pc := SecondNode(f, s.nodeFree[0]))
  }

  lemma OpeningRefines(m: Machine, s: State, wf: seq<nat>, wu: seq<nat>, f: Frame, x: nat)
    returns (wf': seq<nat>, wu': seq<nat>)
    requires Refines(m, s, wf, wu)
    ensures Refines(Opening(m, f, x), Missed(s, f, x), wf', wu')
  {
    TakeNodeHolds(m, s, wf, wu);
    SameRings(m, Opening(m, f, x), s, Missed(s, f, x));
    wf', wu' := wf, wu;
    if |s.nodeFree| > 1 {
      wf', wu' := wf[1..], wu + [wf[0]];
    }
  }

  lemma UpdatingRings(m: Machine, s: State, o: Own, n: nat)
    requires NodeRings(m, s) && NodeLists(s, o) && n in s.active && n < |s.node|
    ensures NodeRings(ToActive(FromActive(m, n), n), s.(active := [n] + Unlink(s.active, n)))
  {
    ListsAreSeparate(s, o);
    FromActiveRings(m, s, n);
    ToActiveRings(FromActive(m, n), s.(active := Unlink(s.active, n)), n);
  }

  lemma UpdatingRefines(m: Machine, s: State, o: Own, wf: seq<nat>, wu: seq<nat>, x: nat, p: Packet)
    requires NodeLists(s, o) && Refines(m, s, wf, wu) && Sess(s, x).activeNode in s.active
    requires Sess(s, x).activeNode < |s.node|
    ensures Refines(Refreshing(m, x, p), UpdateFlow(s, x, p), wf, wu)
  {
    var n := Sess(s, x).activeNode;
    UpdatingRings(m, s, o, n);
    SameRings(ToActive(FromActive(m, n), n), Refreshing(m, x, p), s.(active := [n] + Unlink(s.active, n)),
              UpdateFlow(s, x, p));
  }

  lemma JoiningRings(m: Machine, s: State, o: Own, i: nat, n: nat, a: nat)
    requires NodeRings(m, s) && NodeLists(s, o) && i < |s.table| && |o.node| == |s.node|
    requires n < |s.node| && o.node[n] == NProcess && a < |s.node| && o.node[a] == NFree
    ensures NodeRings(ToActive(ToBucket(m, i, n), a),
                      s.(table := Put(s.table, i, [n] + Bucket(s, i)), active := [a] + s.active))
  {
    ListsAreSeparate(s, o);
    forall p: NodePlace | IsList(p)
      ensures n !in NodesAt(s, p) && a !in NodesAt(s, p)
    {
      Elsewhere(s, o, p, n);
      Elsewhere(s, o, p, a);
    }
    ToBucketRings(m, s, i, n);
    var t := s.(table := Put(s.table, i, [n] + Bucket(s, i)));
    forall p: NodePlace | IsList(p)
      ensures a !in NodesAt(t, p)
    {
      assert NodesAt(t, p) == NodesAt(s, p) || NodesAt(t, p) == [n] + NodesAt(s, p);
    }
    PrependStaysSeparate(s, t, n, i);
    ToActiveRings(ToBucket(m, i, n), t, a);
  }

  lemma PrependStaysSeparate(s: State, t: State, n: nat, i: nat)
    requires Separate(s) && Unlisted(s, n) && i < |s.table| && t == s.(table := Put(s.table, i, [n] + Bucket(s, i)))
    ensures Separate(t)
  {
    forall p: NodePlace, q: NodePlace, j | IsList(p) && IsList(q) && p != q && 0 <= j < |NodesAt(t, p)|
      ensures NodesAt(t, p)[j] !in NodesAt(t, q)
    {
      var x := NodesAt(t, p)[j];
      assert p != NBucket(i) ==> NodesAt(t, p) == NodesAt(s, p);
      assert q != NBucket(i) ==> NodesAt(t, q) == NodesAt(s, q);
      if p == NBucket(i) {
        assert x == n || x == NodesAt(s, p)[j - 1];
      } else {
        assert x == NodesAt(s, p)[j] && x in NodesAt(s, p);
      }
    }
  }

  lemma ReadyToLink(s: State, o: Own, f: Frame, naux: nat)
    requires Inv(s, o) && s.pc == SecondNode(f, naux)
    ensures Shapes(s, o) && NodeLists(s, o) && |s.nodeFree| > 1 && s.aux.Some?
    ensures naux < |s.node| && o.node[naux] == NProcess && s.nodeFree[0] < |s.node| && o.node[s.nodeFree[0]] == NFree
  {
    PoolSuffices(s);
    JoinPlaces(s, o);
  }

  lemma LinkingRefines(m: Machine, s: State, o: Own, wf: seq<nat>, wu: seq<nat>, f: Frame, naux: nat)
    requires Shapes(s, o) && NodeLists(s, o) && |s.nodeFree| > 1 && s.aux.Some? && s.pc == SecondNode(f, naux)
    requires naux < |s.node| && o.node[naux] == NProcess && s.nodeFree[0] < |s.node| && o.node[s.nodeFree[0]] == NFree
    requires Refines(m, s, wf, wu)
    ensures |wf| > 1 && Refines(Linking(m, f, naux), SecondNodeStep(s, f, naux), wf[1..], wu + [wf[0]])
  {
    TakeNodeHolds(m, s, wf, wu);
    var t, a := s.(nodeFree := s.nodeFree[1..], nodeUsed := s.nodeUsed + 1), s.nodeFree[0];
    var p := Take(m.nodes).p;
    SameRings(m, m.(nodes := p), s, t);
    JoinedRefines(m.(nodes := p), s, t, o, wf[1..], wu + [wf[0]], f, s.aux.value, naux, a);
  }

  lemma JoinedRefines(m: Machine, s: State, t: State, o: Own, wf: seq<nat>, wu: seq<nat>, f: Frame, x: nat, n: nat,
                      a: nat)
    requires Shapes(s, o) && NodeLists(s, o) && s.nodeFree != [] && s.pc == SecondNode(f, n) && s.aux == Some(x)
    requires |s.nodeFree| > 1
    requires n < |s.node| && o.node[n] == NProcess && a == s.nodeFree[0] && a < |s.node| && o.node[a] == NFree
    requires t == s.(nodeFree := s.nodeFree[1..], nodeUsed := s.nodeUsed + 1) && Refines(m, t, wf, wu)
    ensures Refines(LinkFlow(m, f, x, n, a), SecondNodeStep(s, f, n), wf, wu)
  {
    var i := GetIndex(Sess(s, x).key);
    var m1 := m.(node := Put(m.node, a, ToNode(n)));
    SameRings(m, m1, t, s);
    JoiningRings(m1, s, o, i, n, a);
    SameRings(ToActive(ToBucket(m1, i, n), a), LinkFlow(m, f, x, n, a),
              s.(table := Put(s.table, i, [n] + Bucket(s, i)), active := [a] + s.active), SecondNodeStep(s, f, n));
  }

  // ---------------------------------------------------------------- the rest of parsePacket

  lemma HitRefines(m: Machine, s: State, o: Own, wf: seq<nat>, wu: seq<nat>, f: Frame, x: nat, k: Key, h: nat)
    requires Shapes(s, o) && NodeLists(s, o) && Links(s, o) && Refines(m, s, wf, wu) && Found(m, k) == Some(h)
    requires h in Bucket(s, GetIndex(k)) && Elapsed(s.now, Sess(s, SessionOf(s, h)).last) <= EXPIRATION_FLOW_TIME
    ensures Refines(Inserting(m, f, x, k), UpdateFlow(s, SessionOf(s, h), Packet(k, s.now, f.len)), wf, wu)
  {
    var i :| 0 <= i < |Bucket(s, GetIndex(k))| && Bucket(s, GetIndex(k))[i] == h;
    SameSession(m, s, h);
    HashedIsActive(s, o, GetIndex(k), i);
    UpdatingRefines(m, s, o, wf, wu, SessionOf(s, h), Packet(k, s.now, f.len));
  }

  lemma MissOpens(m: Machine, s: State, f: Frame, x: nat, k: Key)
    requires m.node == s.node && m.sess == s.sess && m.now == s.now
    requires Found(m, k).Some? ==> Elapsed(s.now, Sess(s, SessionOf(s, Found(m, k).value)).last) > EXPIRATION_FLOW_TIME
    ensures Inserting(m, f, x, k) == Opening(m, f, x)
  {
    if Found(m, k).Some? {
      SameSession(m, s, Found(m, k).value);
    }
  }

  lemma InsertingRefines(m: Machine, s: State, o: Own, wf: seq<nat>, wu: seq<nat>, f: Frame, x: nat, k: Key)
    returns (wf': seq<nat>, wu': seq<nat>)
    requires Shapes(s, o) && NodeLists(s, o) && Links(s, o) && Refines(m, s, wf, wu)
    ensures Refines(Inserting(m, f, x, k), InsertFlow(s, f, x, k), wf', wu')
  {
    var b := Bucket(s, GetIndex(k));
    var i := FirstMatch(s, b, k);
    FoundAgrees(m, s, k);
    if i < |b| && Elapsed(s.now, Sess(s, SessionOf(s, b[i])).last) <= EXPIRATION_FLOW_TIME {
      HitRefines(m, s, o, wf, wu, f, x, k, b[i]);
      wf', wu' := wf, wu;
    } else {
      MissOpens(m, s, f, x, k);
      wf', wu' := OpeningRefines(m, s, wf, wu, f, x);
      assert InsertFlow(s, f, x, k) == Missed(s, f, x);
    }
  }

  /** The session of a table node knows its active node. */
  lemma HashedIsActive(s: State, o: Own, c: nat, i: nat)
    requires Shapes(s, o) && NodeLists(s, o) && Links(s, o) && i < |Bucket(s, c)|
    ensures var a := Sess(s, SessionOf(s, Bucket(s, c)[i])).activeNode;
      a in s.active && a < |s.node|
  {
    BucketIsTagged(s, o, c, i);
    assert HashLinked(s, o, Bucket(s, c)[i]);
    PlaceIsListed(s, o, Sess(s, SessionOf(s, Bucket(s, c)[i])).activeNode);
  }

  lemma PacketRefines(m: Machine, s: State, o: Own, wf: seq<nat>, wu: seq<nat>, f: Frame, x: nat, k: Key)
    returns (wf': seq<nat>, wu': seq<nat>)
    requires Shapes(s, o) && NodeLists(s, o) && SessionLists(s, o) && Links(s, o) && s.pc == Filling(f)
    requires s.aux == Some(x)
    requires Refines(m, s, wf, wu)
    ensures Refines(Inserting(FillSession(m, x, k, f.len), f, x, k), InsertFlow(Filled(s, f, k), f, x, k), wf', wu')
  {
    AuxIsNotHeld(s, o);
    NodeListsFrame(s, Filled(s, f, k), o);
    LinksFrame(s, Filled(s, f, k), o, o);
    MovesNothing(m, FillSession(m, x, k, f.len), s, Filled(s, f, k), wf, wu);
    wf', wu' := InsertingRefines(FillSession(m, x, k, f.len), Filled(s, f, k), o, wf, wu, f, x, k);
  }

  lemma FillingInserting(m: Machine, f: Frame, k: Key)
    requires m.aux.Some? && ParseInto(f, At(m.sess, m.aux.value, NO_SESSION).key) == FlowPacket(k)
    ensures FillingIn(m, f) == Inserting(FillSession(m, m.aux.value, k, f.len), f, m.aux.value, k)
  {
  }

  lemma IgnoringRefines(m: Machine, s: State, wf: seq<nat>, wu: seq<nat>, f: Frame)
    requires Refines(m, s, wf, wu)
    requires s.aux.Some? ==> !ParseInto(f, Sess(s, s.aux.value).key).FlowPacket?
    ensures Refines(FillingIn(m, f), FillingStep(s, f), wf, wu)
  {
    if s.aux == None {
      MovesNothing(m, m.(fault := true), s, s.(fault := true), wf, wu);
    } else if ParseInto(f, Sess(s, s.aux.value).key) == Ignored {
      MovesNothing(m, m.(pc := Idle), s, s.(pc := Idle), wf, wu);
    } else {
      MovesNothing(m, m.(malformed := m.malformed + 1, pc := Idle), s, s.(malformed := s.malformed + 1, pc := Idle),
                   wf, wu);
    }
  }

  lemma FillingRefines(m: Machine, s: State, o: Own, wf: seq<nat>, wu: seq<nat>, f: Frame)
    returns (wf': seq<nat>, wu': seq<nat>)
    requires Shapes(s, o) && NodeLists(s, o) && SessionLists(s, o) && Links(s, o) && s.pc == Filling(f)
    requires Refines(m, s, wf, wu)
    ensures Refines(FillingIn(m, f), FillingStep(s, f), wf', wu')
  {
    if s.aux.Some? && ParseInto(f, Sess(s, s.aux.value).key).FlowPacket? {
      var x, k := s.aux.value, ParseInto(f, Sess(s, s.aux.value).key).key;
      FillingInserts(s, f, k);
      FillingInserting(m, f, k);
      wf', wu' := PacketRefines(m, s, o, wf, wu, f, x, k);
    } else {
      IgnoringRefines(m, s, wf, wu, f);
      wf', wu' := wf, wu;
    }
  }

  // ---------------------------------------------------------------- the export thread

  lemma PoppingRefines(m: Machine, s: State, o: Own, wf: seq<nat>, wu: seq<nat>)
    requires NodeLists(s, o) && Refines(m, s, wf, wu) && s.epc.Waiting?
    ensures Refines(Popping(m), ExportStep(s), wf, wu)
  {
    assert Rings.Ring(m.links, HeadAt(m, NExpired), NodesAt(s, NExpired));
    if s.expired != [] {
      ListsAreSeparate(s, o);
      PopExpiredRings(m, s);
      var (l, list) := Rings.PopFirst(m.links, m.expired);
      SameRings(m.(links := l, expired := list), Popping(m), s.(expired := s.expired[1..]), ExportStep(s));
    } else {
      SameRings(m, Popping(m), s, ExportStep(s));
    }
  }

  lemma WritingRefines(m: Machine, s: State, wf: seq<nat>, wu: seq<nat>, n: nat)
    requires Refines(m, s, wf, wu) && s.epc == Popped(n)
    ensures Refines(Writing(m, n), ExportStep(s), wf, wu)
  {
    SameSession(m, s, n);
    MovesNothing(m, Writing(m, n), s, ExportStep(s), wf, wu);
  }

  lemma ReleasingRefines(m: Machine, s: State, wf: seq<nat>, wu: seq<nat>, n: nat, x: nat)
    requires Refines(m, s, wf, wu) && s.epc == Exported(n, x)
    ensures Refines(Releasing(m, n, x), ExportStep(s), wf, wu)
  {
    GiveRings(m.sessions, s.sessFree, s.sessUsed, x);
    ClearAgrees(m, s, x);
    SameRings(m, Releasing(m, n, x), s, ExportStep(s));
  }

  lemma ReturningRefines(m: Machine, s: State, wf: seq<nat>, wu: seq<nat>, n: nat)
    requires Refines(m, s, wf, wu) && s.epc == SessionReleased(n)
    ensures Refines(GiveNode(m, n).(epc := ExportPc.Waiting), ExportStep(s), FreeAfterGive(wf, wu), UsedAfterGive(wu))
  {
    GiveNodeHolds(m, s, wf, wu, n);
    SameRings(m, GiveNode(m, n).(epc := ExportPc.Waiting), s, ExportStep(s));
  }

  // ---------------------------------------------------------------- every step

  lemma ProcessingRefines(m: Machine, s: State, o: Own, wf: seq<nat>, wu: seq<nat>)
    returns (wf': seq<nat>, wu': seq<nat>)
    requires Inv(s, o) && Refines(m, s, wf, wu)
    ensures Refines(Processing(m), ProcessStep(s), wf', wu')
  {
    wf', wu' := wf, wu;
    match s.pc
    case Idle =>
    case Cleaning(next) =>
      TailAgrees(m, s);
      if TailExpired(s) {
        ExpiringRefines(m, s, o, wf, wu);
        wf', wu' := FreeAfterGive(wf, wu), UsedAfterGive(wu);
      } else {
        SplicingRefines(m, s, o, wf, wu, next);
      }
    case Parsing(f) =>
      ParsingRefines(m, s, wf, wu, f);
    case ReadingWrapper(f, w, _) =>
      MovesNothing(m, Reading(m, f, w), s, ReadWrapper(s, f, w), wf, wu);
    case Filling(f) =>
      wf', wu' := FillingRefines(m, s, o, wf, wu, f);
    case SecondNode(f, naux) =>
      ReadyToLink(s, o, f, naux);
      LinkingRefines(m, s, o, wf, wu, f, naux);
      wf', wu' := wf[1..], wu + [wf[0]];
    case Stopped =>
  }

  lemma ExportingRefines(m: Machine, s: State, o: Own, wf: seq<nat>, wu: seq<nat>)
    returns (wf': seq<nat>, wu': seq<nat>)
    requires NodeLists(s, o) && Refines(m, s, wf, wu)
    ensures Refines(Exporting(m), ExportStep(s), wf', wu')
  {
    wf', wu' := wf, wu;
    match s.epc
    case Waiting =>
      PoppingRefines(m, s, o, wf, wu);
    case Popped(n) =>
      WritingRefines(m, s, wf, wu, n);
    case Exported(n, x) =>
      ReleasingRefines(m, s, wf, wu, n, x);
    case SessionReleased(n) =>
      ReturningRefines(m, s, wf, wu, n);
      wf', wu' := FreeAfterGive(wf, wu), UsedAfterGive(wu);
    case Finished =>
  }

  /** One event on the linked structures is the event of the state machine, and memory represents the new
      lists. */
  lemma StepRefines(m: Machine, s: State, o: Own, wf: seq<nat>, wu: seq<nat>, e: Event)
    returns (wf': seq<nat>, wu': seq<nat>)
    requires Inv(s, o) && Refines(m, s, wf, wu)
    ensures Refines(Taking(m, e), Step(s, e), wf', wu')
  {
    wf', wu' := wf, wu;
    match e
    case Arrive(f) =>
      if s.pc.Idle? {
        ArrivingRefines(m, s, wf, wu, f);
      }
    case Process =>
      wf', wu' := ProcessingRefines(m, s, o, wf, wu);
    case Export =>
      wf', wu' := ExportingRefines(m, s, o, wf, wu);
    case Shutdown =>
      if s.pc.Idle? {
        MovesNothing(m, m.(now := INFINITE_TIME), s, s.(now := INFINITE_TIME), wf, wu);
        BeginRefines(m.(now := INFINITE_TIME), s.(now := INFINITE_TIME), wf, wu, None);
      }
  }
}
