/** In every reachable state the linked nodes in memory are the lists of the state machine: each bucket, the
    active list, both expired lists and the lists of both pools are rings, and no step on one disturbs
    another. */
module FlowLinks {
  import opened FlowTypes
  import opened Frames
  import opened Lists
  import opened FlowState
  import opened FlowInvariant
  import opened FlowMachine
  import Rings

  // ---------------------------------------------------------------- what memory stands for

  /** The places whose nodes are linked into a list. */
  predicate IsList(pl: NodePlace) {
    pl.NBucket? || pl == NActive || pl == NFlags || pl == NExpired
  }

  function HeadAt(m: Machine, pl: NodePlace): Ptr {
    match pl
    case NBucket(i) => At(m.table, i, None)
    case NActive => m.active
    case NFlags => m.flags
    case NExpired => m.expired
    case _ => None
  }

  /** Every list of the state is a ring in the memory of the pooled nodes. */
  ghost predicate NodeRings(m: Machine, s: State) {
    && |m.links.next| == |m.links.prev| == |s.node| && |m.table| == |s.table|
    && forall pl: NodePlace {:trigger NodesAt(s, pl)} {:trigger HeadAt(m, pl)} :: IsList(pl) ==>
         Rings.Ring(m.links, HeadAt(m, pl), NodesAt(s, pl))
  }

  /** The free and the used wrappers of a pool are two rings without a common node. */
  ghost predicate PoolRings(p: Pool, free: seq<nat>, used: seq<nat>) {
    && Rings.Ring(p.links, p.free, free) && Rings.Ring(p.links, p.used, used)
    && |p.data| == |p.links.next|
    && forall i :: 0 <= i < |free| ==> free[i] !in used
  }

  /** The free nodes are what the wrappers `wf` carry, and as many are in use as there are wrappers `wu`. */
  ghost predicate NodePool(m: Machine, s: State, wf: seq<nat>, wu: seq<nat>) {
    && PoolRings(m.nodes, wf, wu)
    && |wf| == |s.nodeFree| && |wu| == s.nodeUsed
    && forall i {:trigger wf[i]} :: 0 <= i < |wf| ==> At(m.nodes.data, wf[i], 0) == s.nodeFree[i]
  }

  ghost predicate SessionPool(m: Machine, s: State) {
    m.sessions.data == s.wrapData && PoolRings(m.sessions, s.sessFree, s.sessUsed)
  }

  ghost predicate SameRest(m: Machine, s: State) {
    && m.now == s.now && m.previous == s.previous && m.previous2 == s.previous2
    && m.node == s.node && m.sess == s.sess && m.aux == s.aux
    && m.pc == s.pc && m.epc == s.epc && m.stopEt == s.stopEt
    && m.malformed == s.malformed && m.unprocessedPackets == s.unprocessedPackets
    && m.unprocessedFlows == s.unprocessedFlows && m.fault == s.fault
    && m.accepted == s.accepted && m.log == s.log
  }

  /** Machine `m` represents state `s`; `wf` and `wu` are the wrappers of the node pool. */
  ghost predicate Refines(m: Machine, s: State, wf: seq<nat>, wu: seq<nat>) {
    SameRest(m, s) && NodeRings(m, s) && NodePool(m, s, wf, wu) && SessionPool(m, s)
  }

  // ---------------------------------------------------------------- pools

  lemma TakeRings(p: Pool, free: seq<nat>, used: seq<nat>)
    requires PoolRings(p, free, used)
    ensures free == [] ==> Take(p) == Crash
    ensures |free| == 1 ==> Take(p).LastKept? && Take(p).p.data == p.data && PoolRings(Take(p).p, free, used)
    ensures |free| > 1 ==> Take(p).Got? && Take(p).w == free[0] && Take(p).p.data == p.data
    ensures |free| > 1 ==> PoolRings(Take(p).p, free[1..], used + [free[0]])
  {
    if free != [] {
      var (l, list) := Rings.PopFirst(p.links, p.free);
      Rings.PopRing(p.links, p.free, free);
      Rings.RingFrame(p.links, l, free, p.used, used);
      var w := free[0];
      assert w < |l.next|;
      if |free| == 1 {
        assert free[1..] == [];
        Rings.AppendRing(l, list, [], w);
        Rings.RingFrame(l, Rings.Append(l, list, w).0, [] + [w], p.used, used);
        assert [] + [w] == free;
      } else {
        assert free[1] in free[1..];
        assert w !in free[1..];
        Rings.AppendRing(l, p.used, used, w);
        Rings.RingFrame(l, Rings.Append(l, p.used, w).0, used + [w], list, free[1..]);
      }
    }
  }

  lemma GiveRings(p: Pool, free: seq<nat>, used: seq<nat>, x: nat)
    requires PoolRings(p, free, used)
    ensures used == [] ==> Give(p, x) == None
    ensures used != [] ==> Give(p, x).Some? && Give(p, x).value.data == Put(p.data, used[0], x)
    ensures used != [] ==> PoolRings(Give(p, x).value, free + [used[0]], used[1..])
  {
    if used != [] {
      var (l, list) := Rings.PopFirst(p.links, p.used);
      var w := used[0];
      Rings.PopRing(p.links, p.used, used);
      Rings.RingFrame(p.links, l, used, p.free, free);
      assert w < |l.next| && w !in used[1..];
      Rings.AppendRing(l, p.free, free, w);
      Rings.RingFrame(l, Rings.Append(l, p.free, w).0, free + [w], list, used[1..]);
    }
  }

  lemma {:induction false} FilledRings(size: nat, k: nat)
    requires k <= size
    ensures PoolRings(FillPool(size, k), Downto(k), []) && FillPool(size, k).data == seq(size, i => i)
    ensures |FillPool(size, k).links.next| == size
  {
    if k > 0 {
      FilledRings(size, k - 1);
      var p := FillPool(size, k - 1);
      Rings.PrependRing(p.links, p.free, Downto(k - 1), k - 1);
      Rings.RingFrame(p.links, Rings.Prepend(p.links, p.free, k - 1).0, [k - 1] + Downto(k - 1), p.used, []);
    }
  }

  lemma BootRefines(n: nat)
    ensures Refines(Boot(n), Start(n), Downto(2 * n), [])
  {
    FilledRings(2 * n, 2 * n);
    FilledRings(n, n);
    var m, s := Boot(n), Start(n);
    forall pl: NodePlace | IsList(pl)
      ensures Rings.Ring(m.links, HeadAt(m, pl), NodesAt(s, pl))
    {
      assert NodesAt(s, pl) == [] && HeadAt(m, pl) == None;
    }
  }

  // ---------------------------------------------------------------- one list changes

  /** Nodes of different places are different. */
  lemma Apart(s: State, o: Own, p: NodePlace, q: NodePlace, i: nat)
    requires NodeLists(s, o) && p != q && i < |NodesAt(s, p)|
    ensures NodesAt(s, p)[i] !in NodesAt(s, q)
  {
    assert Tagged(NodesAt(s, p), o.node, p);
    assert Tagged(NodesAt(s, q), o.node, q);
  }

  /** What is not in a list's place is not in the list. */
  lemma Elsewhere(s: State, o: Own, p: NodePlace, n: nat)
    requires NodeLists(s, o) && n < |o.node| && o.node[n] != p
    ensures n !in NodesAt(s, p)
  {
    assert Tagged(NodesAt(s, p), o.node, p);
  }

  /** When only the list at `pl` changes, within memory no other list uses, all lists are rings still. */
  lemma ChangeOne(m: Machine, m': Machine, s: State, s': State, pl: NodePlace, changed: seq<nat>)
    requires NodeRings(m, s) && IsList(pl)
    requires |m'.table| == |m.table| && |s'.table| == |s.table| && |s'.node| == |s.node|
    requires Rings.Ring(m'.links, HeadAt(m', pl), NodesAt(s', pl)) && Rings.SameBut(m.links, m'.links, changed)
    requires forall q: NodePlace {:trigger NodesAt(s', q)} {:trigger HeadAt(m', q)} :: IsList(q) && q != pl ==>
      && HeadAt(m', q) == HeadAt(m, q) && NodesAt(s', q) == NodesAt(s, q)
      && forall i :: 0 <= i < |NodesAt(s, q)| ==> NodesAt(s, q)[i] !in changed
    ensures NodeRings(m', s')
  {
    forall q: NodePlace | IsList(q)
      ensures Rings.Ring(m'.links, HeadAt(m', q), NodesAt(s', q))
    {
      if q != pl {
        assert HeadAt(m', q) == HeadAt(m, q) && NodesAt(s', q) == NodesAt(s, q);
        assert Rings.Ring(m.links, HeadAt(m, q), NodesAt(s, q));
        Rings.RingFrame(m.links, m'.links, changed, HeadAt(m, q), NodesAt(s, q));
      }
    }
  }

  lemma SameRings(m: Machine, m': Machine, s: State, s': State)
    requires NodeRings(m, s)
    requires m'.links == m.links && m'.table == m.table && m'.active == m.active && m'.flags == m.flags
    requires m'.expired == m.expired && |s'.node| == |s.node|
    requires s'.table == s.table && s'.active == s.active && s'.flags == s.flags && s'.expired == s.expired
    ensures NodeRings(m', s')
  {
    forall q: NodePlace | IsList(q)
      ensures Rings.Ring(m'.links, HeadAt(m', q), NodesAt(s', q))
    {
      assert HeadAt(m', q) == HeadAt(m, q) && NodesAt(s', q) == NodesAt(s, q);
      assert Rings.Ring(m.links, HeadAt(m, q), NodesAt(s, q));
    }
  }

  /** No node is in two lists. */
  ghost predicate Separate(s: State) {
    forall p: NodePlace, q: NodePlace {:trigger NodesAt(s, p), NodesAt(s, q)} :: IsList(p) && IsList(q) && p != q ==>
      forall i :: 0 <= i < |NodesAt(s, p)| ==> NodesAt(s, p)[i] !in NodesAt(s, q)
  }

  lemma ListsAreSeparate(s: State, o: Own)
    requires NodeLists(s, o)
    ensures Separate(s)
  {
    forall p: NodePlace, q: NodePlace, i | IsList(p) && IsList(q) && p != q && 0 <= i < |NodesAt(s, p)|
      ensures NodesAt(s, p)[i] !in NodesAt(s, q)
    {
      Apart(s, o, p, q, i);
    }
  }

  /** Node `n` is in no list. */
  ghost predicate Unlisted(s: State, n: nat) {
    forall p: NodePlace {:trigger NodesAt(s, p)} :: IsList(p) ==> n !in NodesAt(s, p)
  }

  /** `s'` is `s` with some nodes out of the list at `pl`. */
  ghost predicate Fewer(s: State, s': State, pl: NodePlace) {
    && |s'.table| == |s.table| && |s'.node| == |s.node|
    && (forall q: NodePlace {:trigger NodesAt(s', q)} :: IsList(q) && q != pl ==> NodesAt(s', q) == NodesAt(s, q))
    && (forall i {:trigger NodesAt(s', pl)[i]} :: 0 <= i < |NodesAt(s', pl)| ==> NodesAt(s', pl)[i] in NodesAt(s, pl))
  }

  lemma FewerStaySeparate(s: State, s': State, pl: NodePlace)
    requires Separate(s) && Fewer(s, s', pl) && IsList(pl)
    ensures Separate(s')
  {
    forall p: NodePlace, q: NodePlace, i | IsList(p) && IsList(q) && p != q && 0 <= i < |NodesAt(s', p)|
      ensures NodesAt(s', p)[i] !in NodesAt(s', q)
    {
      var x := NodesAt(s', p)[i];
      assert x in NodesAt(s, p);
      var j :| 0 <= j < |NodesAt(s, p)| && NodesAt(s, p)[j] == x;
      assert x !in NodesAt(s, q);
    }
  }

  /** Taking nodes out of one list, with writes to its nodes only. */
  lemma TakeOut(m: Machine, m': Machine, s: State, s': State, pl: NodePlace)
    requires NodeRings(m, s) && IsList(pl) && Separate(s) && Fewer(s, s', pl) && |m'.table| == |m.table|
    requires Rings.Ring(m'.links, HeadAt(m', pl), NodesAt(s', pl)) && Rings.SameBut(m.links, m'.links, NodesAt(s, pl))
    requires forall q: NodePlace {:trigger HeadAt(m', q)} :: IsList(q) && q != pl ==> HeadAt(m', q) == HeadAt(m, q)
    ensures NodeRings(m', s') && Separate(s')
  {
    FewerStaySeparate(s, s', pl);
    ChangeOne(m, m', s, s', pl, NodesAt(s, pl));
  }

  /** Putting an unlisted node into one list, with writes to it and the list's nodes only. */
  lemma PutIn(m: Machine, m': Machine, s: State, s': State, pl: NodePlace, n: nat)
    requires NodeRings(m, s) && IsList(pl) && Separate(s) && Unlisted(s, n)
    requires |m'.table| == |m.table| && |s'.table| == |s.table| && |s'.node| == |s.node|
    requires NodesAt(s', pl) == [n] + NodesAt(s, pl) || NodesAt(s', pl) == NodesAt(s, pl) + [n]
    requires Rings.Ring(m'.links, HeadAt(m', pl), NodesAt(s', pl)) && Rings.SameBut(m.links, m'.links, NodesAt(s', pl))
    requires forall q: NodePlace {:trigger HeadAt(m', q)} {:trigger NodesAt(s', q)} :: IsList(q) && q != pl ==>
      HeadAt(m', q) == HeadAt(m, q) && NodesAt(s', q) == NodesAt(s, q)
    ensures NodeRings(m', s')
  {
    var changed := NodesAt(s', pl);
    forall q: NodePlace, i | IsList(q) && q != pl && 0 <= i < |NodesAt(s, q)|
      ensures NodesAt(s, q)[i] !in changed
    {
      assert NodesAt(s, q)[i] in NodesAt(s, q);
      assert NodesAt(s, q)[i] !in NodesAt(s, pl);
    }
    ChangeOne(m, m', s, s', pl, changed);
  }

  // ---------------------------------------------------------------- the operations of the program

  lemma UnlinkIsPart(b: seq<nat>, h: nat)
    ensures forall i :: 0 <= i < |Unlink(b, h)| ==> Unlink(b, h)[i] in b
  {
  }

  lemma FromBucketRings(m: Machine, s: State, i: nat, h: nat)
    requires NodeRings(m, s) && Separate(s) && h in Bucket(s, i)
    ensures var s' := s.(table := Put(s.table, i, Unlink(Bucket(s, i), h)));
      NodeRings(FromBucket(m, i, h), s') && Separate(s')
  {
    var m', s' := FromBucket(m, i, h), s.(table := Put(s.table, i, Unlink(Bucket(s, i), h)));
    var b := Bucket(s, i);
    assert i < |s.table| && NodesAt(s, NBucket(i)) == b;
    Rings.RemoveRing(m.links, HeadAt(m, NBucket(i)), b, h);
    assert NodesAt(s', NBucket(i)) == Unlink(b, h);
    UnlinkIsPart(b, h);
    TakeOut(m, m', s, s', NBucket(i));
  }

  lemma FromActiveRings(m: Machine, s: State, n: nat)
    requires NodeRings(m, s) && Separate(s) && n in s.active
    ensures var s' := s.(active := Unlink(s.active, n));
      NodeRings(FromActive(m, n), s') && Separate(s') && Unlisted(s', n)
  {
    var s' := s.(active := Unlink(s.active, n));
    assert NodesAt(s, NActive) == s.active && NodesAt(s', NActive) == s'.active;
    Rings.RemoveRing(m.links, HeadAt(m, NActive), s.active, n);
    TakeOut(m, FromActive(m, n), s, s', NActive);
    forall p: NodePlace | IsList(p)
      ensures n !in NodesAt(s', p)
    {
      if p != NActive {
        var j :| 0 <= j < |s.active| && s.active[j] == n;
        assert NodesAt(s, NActive)[j] !in NodesAt(s, p);
      }
    }
  }

  lemma ToFlagsRings(m: Machine, s: State, n: nat)
    requires NodeRings(m, s) && Separate(s) && Unlisted(s, n) && n < |s.node|
    ensures NodeRings(ToFlags(m, n), s.(flags := s.flags + [n]))
  {
    var s' := s.(flags := s.flags + [n]);
    assert NodesAt(s, NFlags) == s.flags && NodesAt(s', NFlags) == s'.flags;
    Rings.AppendRing(m.links, HeadAt(m, NFlags), s.flags, n);
    PutIn(m, ToFlags(m, n), s, s', NFlags, n);
  }

  lemma ToActiveRings(m: Machine, s: State, n: nat)
    requires NodeRings(m, s) && Separate(s) && Unlisted(s, n) && n < |s.node|
    ensures NodeRings(ToActive(m, n), s.(active := [n] + s.active))
  {
    var s' := s.(active := [n] + s.active);
    assert NodesAt(s, NActive) == s.active && NodesAt(s', NActive) == s'.active;
    Rings.PrependRing(m.links, HeadAt(m, NActive), s.active, n);
    PutIn(m, ToActive(m, n), s, s', NActive, n);
  }

  lemma ToBucketRings(m: Machine, s: State, i: nat, n: nat)
    requires NodeRings(m, s) && Separate(s) && Unlisted(s, n) && n < |s.node| && i < |s.table|
    ensures NodeRings(ToBucket(m, i, n), s.(table := Put(s.table, i, [n] + Bucket(s, i))))
  {
    var s' := s.(table := Put(s.table, i, [n] + Bucket(s, i)));
    assert NodesAt(s, NBucket(i)) == Bucket(s, i) && NodesAt(s', NBucket(i)) == [n] + Bucket(s, i);
    Rings.PrependRing(m.links, HeadAt(m, NBucket(i)), Bucket(s, i), n);
    PutIn(m, ToBucket(m, i, n), s, s', NBucket(i), n);
  }

  lemma PopExpiredRings(m: Machine, s: State)
    requires NodeRings(m, s) && Separate(s) && s.expired != []
    ensures m.expired == Some(s.expired[0])
    ensures var (l, list) := Rings.PopFirst(m.links, m.expired);
      NodeRings(m.(links := l, expired := list), s.(expired := s.expired[1..]))
  {
    var (l, list) := Rings.PopFirst(m.links, m.expired);
    var m', s' := m.(links := l, expired := list), s.(expired := s.expired[1..]);
    assert NodesAt(s, NExpired) == s.expired && NodesAt(s', NExpired) == s'.expired;
    assert HeadAt(m, NExpired) == m.expired;
    Rings.PopRing(m.links, m.expired, s.expired);
    TakeOut(m, m', s, s', NExpired);
  }

  lemma SpliceRings(m: Machine, s: State)
    requires NodeRings(m, s) && Separate(s)
    ensures NodeRings(SpliceFlags(m), s.(expired := s.expired + s.flags, flags := []))
  {
    var m', s' := SpliceFlags(m), s.(expired := s.expired + s.flags, flags := []);
    assert NodesAt(s, NFlags) == s.flags && NodesAt(s, NExpired) == s.expired;
    assert HeadAt(m, NFlags) == m.flags && HeadAt(m, NExpired) == m.expired;
    if s.flags == [] {
      assert s.expired + s.flags == s.expired;
      SameRings(m, m', s, s');
    } else {
      Rings.SpliceRing(m.links, m.expired, s.expired, m.flags, s.flags);
      forall q: NodePlace | IsList(q)
        ensures Rings.Ring(m'.links, HeadAt(m', q), NodesAt(s', q))
      {
        if q != NFlags && q != NExpired {
          SpliceOthers(m, m', s, s', q);
        }
      }
    }
  }

  lemma SpliceOthers(m: Machine, m': Machine, s: State, s': State, q: NodePlace)
    requires NodeRings(m, s) && Separate(s) && IsList(q) && q != NFlags && q != NExpired
    requires Rings.SameBut(m.links, m'.links, s.expired + s.flags)
    requires HeadAt(m', q) == HeadAt(m, q) && NodesAt(s', q) == NodesAt(s, q)
    ensures Rings.Ring(m'.links, HeadAt(m', q), NodesAt(s', q))
  {
    assert NodesAt(s, NFlags) == s.flags && NodesAt(s, NExpired) == s.expired;
    forall i | 0 <= i < |NodesAt(s, q)|
      ensures NodesAt(s, q)[i] !in s.expired + s.flags
    {
      assert NodesAt(s, q)[i] !in NodesAt(s, NFlags) && NodesAt(s, q)[i] !in NodesAt(s, NExpired);
    }
    assert Rings.Ring(m.links, HeadAt(m, q), NodesAt(s, q));
    Rings.RingFrame(m.links, m'.links, s.expired + s.flags, HeadAt(m, q), NodesAt(s, q));
  }

  // ---------------------------------------------------------------- the node pool

  ghost function FreeAfterGive(wf: seq<nat>, wu: seq<nat>): seq<nat> {
    if wu == [] then wf else wf + [wu[0]]
  }

  ghost function UsedAfterGive(wu: seq<nat>): seq<nat> {
    if wu == [] then wu else wu[1..]
  }

  lemma GiveNodeHolds(m: Machine, s: State, wf: seq<nat>, wu: seq<nat>, n: nat)
    requires NodePool(m, s, wf, wu)
    ensures NodePool(GiveNode(m, n), ReleaseNode(s, n), FreeAfterGive(wf, wu), UsedAfterGive(wu))
    ensures GiveNode(m, n).fault == (m.fault || wu == [])
  {
    GiveRings(m.nodes, wf, wu, n);
    if wu != [] {
      assert wu[0] < |m.nodes.data|;
      var wf', data := wf + [wu[0]], Put(m.nodes.data, wu[0], n);
      forall i | 0 <= i < |wf'|
        ensures At(data, wf'[i], 0) == (s.nodeFree + [n])[i]
      {
        if i < |wf| {
          assert wf[i] !in wu && wf[i] != wu[0];
        }
      }
    }
  }

  /** `getNodel`: the node taken is the first free one, and the last one is kept. */
  lemma TakeNodeHolds(m: Machine, s: State, wf: seq<nat>, wu: seq<nat>)
    requires NodePool(m, s, wf, wu)
    ensures s.nodeFree == [] ==> Take(m.nodes) == Crash
    ensures |s.nodeFree| == 1 ==> Take(m.nodes).LastKept? && NodePool(m.(nodes := Take(m.nodes).p), s, wf, wu)
    ensures |s.nodeFree| > 1 ==> Take(m.nodes).Got? && At(Take(m.nodes).p.data, Take(m.nodes).w, 0) == s.nodeFree[0]
    ensures |s.nodeFree| > 1 ==>
      NodePool(m.(nodes := Take(m.nodes).p), s.(nodeFree := s.nodeFree[1..], nodeUsed := s.nodeUsed + 1),
               wf[1..], wu + [wf[0]])
  {
    TakeRings(m.nodes, wf, wu);
    if |wf| > 1 {
      forall i | 0 <= i < |wf[1..]|
        ensures At(m.nodes.data, wf[1..][i], 0) == s.nodeFree[1..][i]
      {
        assert wf[1..][i] == wf[i + 1];
      }
    }
  }
}
