/** The steps of the process thread on one packet keep the invariant. */
module FlowProcess {
  import opened FlowTypes
  import opened Frames
  import opened Lists
  import opened FlowState
  import opened FlowInvariant
  import opened FlowFrames
  import opened Sessionization

  // ---------------------------------------------------------------- a scratch session

  /** `getIPSession`: the wrapper goes to the tail of the used list. */
  lemma TakeSession(s: State, o: Own, f: Frame) returns (o': Own)
    requires Shapes(s, o) && SessionLists(s, o) && Books(s) && s.pc == Parsing(f)
    requires f.caplen >= ETH_HLEN && s.aux.None? && |s.sessFree| > 1
    ensures |o'.sess| == |o.sess| && o'.node == o.node
    ensures forall x :: 0 <= x < |o.sess| ==> (o'.sess[x] == SHeld <==> o.sess[x] == SHeld)
    ensures SessionLists(ParsingStep(s, f), o') && Wrappers(ParsingStep(s, f))
    ensures Counts(ParsingStep(s, f))
  {
    var s', w := ParsingStep(s, f), s.sessFree[0];
    var x := FreeSessions(s)[0];
    o' := o.(sess := o.sess[x := SAux]);
    UnlinkHead(FreeSessions(s));
    assert FreeSessions(s') == FreeSessions(s)[1..];
    TaggedAway(FreeSessions(s), x, o.sess, SFree, SAux);
    TaggedInto(AuxSessions(s), AuxSessions(s'), x, o.sess, SAux);
    var all, all' := s.sessFree + s.sessUsed, s'.sessFree + s'.sessUsed;
    assert forall i :: 0 <= i < |all'| - 1 ==> all'[i] == all[i + 1];
    assert all'[|all'| - 1] == all[0];
  }

  lemma TakeRecords(s: State, f: Frame)
    requires Timeline(s) && Buckets(s) && s.pc == Parsing(f)
    requires f.caplen >= ETH_HLEN && s.aux.None? && |s.sessFree| > 1
    ensures Timeline(ParsingStep(s, f)) && Buckets(ParsingStep(s, f))
  {
    var s' := ParsingStep(s, f);
    assert Queue(s') == Queue(s);
    RecsAtFrame(s, s', Queue(s));
    TimelineFrame(s, s');
    BucketsFrame(s, s');
  }

  /** `QuietKeeps` for the step that takes a session from the pool. */
  lemma TakeKeeps(s: State, o: Own, f: Frame) returns (o': Own)
    requires Inv(s, o) && s.pc == Parsing(f)
    requires f.caplen >= ETH_HLEN && s.aux.None? && |s.sessFree| > 1
    ensures Inv(ParsingStep(s, f), o')
  {
    o' := TakeSession(s, o, f);
    NodeListsFrame(s, ParsingStep(s, f), o);
    LinksFrameSame(s, ParsingStep(s, f), o, o');
    TakeRecords(s, f);
    TakeControl(s, f);
  }

  lemma TakeControl(s: State, f: Frame)
    requires Clocks(s) && Control(s) && s.pc == Parsing(f)
    requires f.caplen >= ETH_HLEN && s.aux.None? && |s.sessFree| > 1
    ensures Clocks(ParsingStep(s, f)) && Control(ParsingStep(s, f))
  {
  }

  lemma ParsingKeeps(s: State, o: Own, f: Frame) returns (o': Own)
    requires Inv(s, o) && s.pc == Parsing(f)
    ensures Inv(ParsingStep(s, f), o')
  {
    o' := o;
    if f.caplen >= ETH_HLEN && s.aux.None? && |s.sessFree| > 1 {
      o' := TakeKeeps(s, o, f);
    } else {
      AuxIsNotHeld(s, o);
      QuietKeeps(s, ParsingStep(s, f), o);
    }
  }

  lemma AuxIsNotHeld(s: State, o: Own)
    requires SessionLists(s, o)
    ensures !s.pc.ReadingWrapper? && s.aux.Some? ==>
      s.aux.value < |o.sess| && o.sess[s.aux.value] == SAux
  {
    if !s.pc.ReadingWrapper? && s.aux.Some? {
      assert AuxSessions(s)[0] == s.aux.value;
    }
  }

  lemma ReadKeeps(s: State, o: Own)
    requires Inv(s, o) && s.pc.ReadingWrapper?
    ensures Inv(ReadWrapper(s, s.pc.f, s.pc.w), o)
    ensures ReadWrapper(s, s.pc.f, s.pc.w).aux == Some(s.pc.popped)
  {
    QuietKeeps(s, ReadWrapper(s, s.pc.f, s.pc.w), o);
  }

  // ---------------------------------------------------------------- the packet's fields

  /** The scratch session filled with the packet's fields. */
  function Filled(s: State, f: Frame, k: Key): State
    requires s.aux.Some?
  {
    var x := s.aux.value;
    s.(sess := Put(s.sess, x, Session(k, s.now, s.now, 1, f.len, Sess(s, x).activeNode)))
  }

  lemma FillingInserts(s: State, f: Frame, k: Key)
    requires s.aux.Some? && ParseInto(f, Sess(s, s.aux.value).key) == FlowPacket(k)
    ensures FillingStep(s, f) == InsertFlow(Filled(s, f, k), f, s.aux.value, k)
  {
  }

  // ---------------------------------------------------------------- the search in the bucket

  /** The hash node and the active node of a live record. */
  lemma LiveNode(s: State, o: Own, m: nat) returns (h: nat, j: nat)
    requires Shapes(s, o) && NodeLists(s, o) && Links(s, o) && m < |s.active|
    ensures RecOf(s, h) == RecOf(s, s.active[m]) && SessionOf(s, h) == SessionOf(s, s.active[m])
    ensures j < |Bucket(s, GetIndex(RecOf(s, h).key))| && Bucket(s, GetIndex(RecOf(s, h).key))[j] == h
    ensures OuterLinked(s, o, s.active[m])
  {
    var a := s.active[m];
    assert Tagged(NodesAt(s, NActive), o.node, NActive);
    assert OuterLinked(s, o, a);
    h := Data(s, a).n;
    PlaceIsListed(s, o, h);
    j :| 0 <= j < |Bucket(s, GetIndex(RecOf(s, h).key))| && Bucket(s, GetIndex(RecOf(s, h).key))[j] == h;
  }

  /** The position in the queue, and so in the records, of the `m`-th active node. */
  function QueuePos(s: State, m: nat): (i: nat)
    requires m < |s.active|
    ensures i < |Queue(s)| && Queue(s)[i] == s.active[m]
    ensures i == |Queue(s)| - 1 - m
  {
    |Queue(s)| - 1 - m
  }

  /** A record that was not taken off the table is that of an active node. */
  lemma LiveRecord(s: State, i: nat)
    requires |Records(s)| - |s.active| <= i < |Records(s)|
    ensures |Records(s)| - 1 - i < |s.active|
    ensures Records(s)[i] == RecOf(s, s.active[|Records(s)| - 1 - i])
  {
    var m := |Records(s)| - 1 - i;
    assert Records(s)[i] == RecsAt(s, Queue(s))[QueuePos(s, m)];
  }

  /** When the search fails, or finds an expired record, no record of the key can take the packet. */
  lemma SearchFails(s: State, o: Own, k: Key)
    requires Shapes(s, o) && NodeLists(s, o) && Links(s, o) && Timeline(s) && Buckets(s)
    requires s.now < U64
    requires var b := Bucket(s, GetIndex(k)); var i := FirstMatch(s, b, k);
      i == |b| || Elapsed(s.now, Sess(s, SessionOf(s, b[i])).last) > EXPIRATION_FLOW_TIME
    ensures AllExpired(Records(s), k, s.now)
  {
    var b := Bucket(s, GetIndex(k));
    var i := FirstMatch(s, b, k);
    var recs := Records(s);
    forall r | 0 <= r < |recs| && recs[r].key == k
      ensures recs[r].last + EXPIRATION_FLOW_TIME < s.now
    {
      if r >= |recs| - |s.active| {
        LiveRecord(s, r);
        var h, j := LiveNode(s, o, |recs| - 1 - r);
        assert b[j] == h && RecOf(s, h) == recs[r];
        assert i <= j;
        assert NewestFirst(s, b);
        MatchIsRecorded(s, o, k);
      }
    }
  }

  /** The node the search finds carries a live record. */
  lemma MatchIsRecorded(s: State, o: Own, k: Key)
    requires NodeLists(s, o) && Links(s, o) && Timeline(s)
    requires FirstMatch(s, Bucket(s, GetIndex(k)), k) < |Bucket(s, GetIndex(k))|
    ensures var h := Bucket(s, GetIndex(k))[FirstMatch(s, Bucket(s, GetIndex(k)), k)];
      var x := SessionOf(s, h);
      && x < |o.sess| && o.sess[x] == SHeld
      && Sess(s, x).activeNode in s.active
      && SessionOf(s, Sess(s, x).activeNode) == x
      && RecOf(s, h).last <= s.now && RecOf(s, h).key == k
  {
    var b := Bucket(s, GetIndex(k));
    var i := FirstMatch(s, b, k);
    BucketIsTagged(s, o, GetIndex(k), i);
    assert HashLinked(s, o, b[i]);
    var a := Sess(s, SessionOf(s, b[i])).activeNode;
    PlaceIsListed(s, o, a);
    var m :| 0 <= m < |s.active| && s.active[m] == a;
    assert Records(s)[|s.log| + QueuePos(s, m)] == RecOf(s, a);
  }
}
