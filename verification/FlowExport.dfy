/** The steps of the export thread keep the invariant, one lemma for each part a step touches. */
module FlowExport {
  import opened FlowTypes
  import opened Frames
  import opened Lists
  import opened FlowState
  import opened FlowInvariant
  import opened FlowFrames
  import opened Sessionization

  // ---------------------------------------------------------------- pop

  lemma PopNodes(s: State, o: Own) returns (o': Own)
    requires NodeLists(s, o) && s.epc.Waiting? && s.expired != []
    ensures s.expired[0] < |o.node| && o.node[s.expired[0]] == NExpired
    ensures o' == o.(node := o.node[s.expired[0] := NExporter])
    ensures NodeLists(ExportStep(s), o')
  {
    MoveNode(s, ExportStep(s), o, s.expired[0], NExpired, NExporter);
    o' := o.(node := o.node[s.expired[0] := NExporter]);
  }

  lemma PopLinks(s: State, o: Own, o': Own)
    requires Links(s, o) && NodeLists(s, o) && s.epc.Waiting? && s.expired != []
    requires s.expired[0] < |o.node| && o.node[s.expired[0]] == NExpired
    requires o' == o.(node := o.node[s.expired[0] := NExporter])
    ensures Links(ExportStep(s), o')
  {
    var s' := ExportStep(s);
    forall n: nat
      ensures Outer(s', o', n) <==> Outer(s, o, n)
    {
      if n < |o.node| && o.node[n] == NExporter {
        PlaceIsListed(s, o, n);
      }
    }
    LinksFrame(s, s', o, o');
  }

  lemma PopRecords(s: State)
    requires s.epc.Waiting? && s.expired != []
    ensures Records(ExportStep(s)) == Records(s)
  {
    var s' := ExportStep(s);
    assert Queue(s') == Queue(s);
    RecsAtFrame(s, s', Queue(s));
  }

  lemma PopRest(s: State)
    requires Books(s) && Buckets(s) && Control(s) && s.epc.Waiting? && s.expired != []
    requires Records(ExportStep(s)) == Records(s)
    ensures Books(ExportStep(s)) && Buckets(ExportStep(s)) && Control(ExportStep(s))
  {
    BucketsFrame(s, ExportStep(s));
  }

  lemma PopKeeps(s: State, o: Own) returns (o': Own)
    requires Inv(s, o) && s.epc.Waiting? && s.expired != []
    ensures Inv(ExportStep(s), o')
  {
    o' := PopNodes(s, o);
    SessionListsFrame(s, ExportStep(s), o, o');
    PopLinks(s, o, o');
    PopRecords(s);
    TimelineFrame(s, ExportStep(s));
    PopRest(s);
  }

  // ---------------------------------------------------------------- write the record

  lemma WriteRecords(s: State)
    requires s.epc.Popped?
    ensures Records(ExportStep(s)) == Records(s)
  {
    var s' := ExportStep(s);
    assert Queue(s) == [s.epc.n] + Queue(s');
    RecsAtConcat(s, [s.epc.n], Queue(s'));
    RecsAtFrame(s, s', Queue(s'));
  }

  lemma WriteNodes(s: State, o: Own)
    requires NodeLists(s, o) && SessionLists(s, o) && s.epc.Popped?
    ensures NodeLists(ExportStep(s), o) && SessionLists(ExportStep(s), o)
  {
    NodeListsFrame(s, ExportStep(s), o);
    SessionListsFrame(s, ExportStep(s), o, o);
  }

  lemma HandIsOuter(s: State, o: Own)
    requires NodeLists(s, o) && Links(s, o) && (s.epc.Popped? || s.epc.Exported?)
    ensures s.epc.n < |o.node| && o.node[s.epc.n] == NExporter && OuterLinked(s, o, s.epc.n)
    ensures SessionOf(s, s.epc.n) < |o.sess| && o.sess[SessionOf(s, s.epc.n)] == SHeld
    ensures Data(s, s.epc.n) == ToSession(SessionOf(s, s.epc.n))
  {
    assert Tagged(NodesAt(s, NExporter), o.node, NExporter);
    assert HandNodes(s)[0] == s.epc.n;
  }

  lemma WriteRest(s: State, o: Own)
    requires NodeLists(s, o) && Links(s, o)
    requires Books(s) && Buckets(s) && Control(s) && s.epc.Popped?
    ensures Books(ExportStep(s)) && Buckets(ExportStep(s)) && Control(ExportStep(s))
  {
    HandIsOuter(s, o);
    WriteRecords(s);
    BucketsFrame(s, ExportStep(s));
  }

  lemma WriteKeeps(s: State, o: Own)
    requires Inv(s, o) && s.epc.Popped?
    ensures Inv(ExportStep(s), o)
  {
    WriteNodes(s, o);
    LinksFrame(s, ExportStep(s), o, o);
    WriteRecords(s);
    TimelineFrame(s, ExportStep(s));
    WriteRest(s, o);
  }

  // ---------------------------------------------------------------- release the session

  /** While the process thread has yet to read its wrapper, at least two are in use, so the one the
      export thread overwrites is another. */
  lemma ReleaseBooks(s: State, o: Own)
    requires Books(s) && Control(s) && s.epc.Exported?
    ensures Books(ExportStep(s)) && s.sessUsed != []
    ensures s.pc.ReadingWrapper? ==>
      && |s.sessUsed| >= 2 && s.sessUsed[0] != s.pc.w
      && Last(ExportStep(s).sessUsed) == s.pc.w
      && At(ExportStep(s).wrapData, s.pc.w, 0) == s.pc.popped
  {
    var s' := ExportStep(s);
    var all := s.sessFree + s.sessUsed;
    assert all[|s.sessFree|] == s.sessUsed[0];
    assert Wrappers(s') by {
      var all' := s'.sessFree + s'.sessUsed;
      assert forall i :: 0 <= i < |all'| ==> all'[i] == all[i];
    }
    if s.pc.ReadingWrapper? {
      assert all[|all| - 1] == s.pc.w;
    }
  }

  lemma FreeAfterRelease(s: State, o: Own)
    requires Wrappers(s) && s.epc.Exported? && s.sessUsed != []
    ensures FreeSessions(ExportStep(s)) == FreeSessions(s) + [s.epc.x]
  {
    var s', x := ExportStep(s), s.epc.x;
    var all := s.sessFree + s.sessUsed;
    assert all[|s.sessFree|] == s.sessUsed[0];
    assert s.sessUsed[0] < |s.wrapData|;
    forall i | 0 <= i < |FreeSessions(s')|
      ensures FreeSessions(s')[i] == (FreeSessions(s) + [x])[i]
    {
      assert i < |s.sessFree| ==> all[i] == s.sessFree[i] && all[i] != s.sessUsed[0];
    }
  }

  lemma ReleaseSessions(s: State, o: Own) returns (o': Own)
    requires SessionLists(s, o) && Wrappers(s) && s.epc.Exported? && s.sessUsed != []
    requires s.epc.x < |o.sess| && o.sess[s.epc.x] == SHeld
    ensures o' == o.(sess := o.sess[s.epc.x := SFree])
    ensures SessionLists(ExportStep(s), o')
  {
    var s', x := ExportStep(s), s.epc.x;
    o' := o.(sess := o.sess[x := SFree]);
    FreeAfterRelease(s, o);
    TaggedInto(FreeSessions(s), FreeSessions(s'), x, o.sess, SFree);
    TaggedOther(AuxSessions(s), x, o.sess, SFree, SAux);
  }

  lemma ReleaseLinks(s: State, o: Own, o': Own)
    requires NodeLists(s, o) && Links(s, o) && s.epc.Exported? && Data(s, s.epc.n) == ToSession(s.epc.x)
    requires s.epc.x < |o.sess| && o' == o.(sess := o.sess[s.epc.x := SFree]) && s.sessUsed != []
    ensures Links(ExportStep(s), o')
  {
    var s' := ExportStep(s);
    HandIsOuter(s, o);
    forall n: nat
      ensures Outer(s', o', n) ==> Outer(s, o, n) && n != s.epc.n
      ensures Outer(s, o, n) && n != s.epc.n ==> Outer(s', o', n)
    {
      if n < |o.node| && o.node[n] == NExporter {
        PlaceIsListed(s, o, n);
      }
    }
    LinksFrameBut(s, s', o, o', s.epc.x);
  }

  lemma ReleaseRecords(s: State, o: Own)
    requires NodeLists(s, o) && Links(s, o) && s.epc.Exported? && Data(s, s.epc.n) == ToSession(s.epc.x)
    requires s.sessUsed != []
    ensures Records(ExportStep(s)) == Records(s)
    ensures Buckets(s) ==> Buckets(ExportStep(s))
  {
    var s' := ExportStep(s);
    HandIsOuter(s, o);
    assert Queue(s') == Queue(s);
    forall i | 0 <= i < |Queue(s)|
      ensures RecOf(s', Queue(s)[i]) == RecOf(s, Queue(s)[i])
    {
      QueueIsOuter(s, o, i);
      QueueNotHand(s, o, i);
      assert OuterLinked(s, o, Queue(s)[i]);
    }
    RecsAtFrame(s, s', Queue(s));
    if Buckets(s) {
      forall i, j | 0 <= i < MAX_FLOW_TABLE_SIZE && 0 <= j < |Bucket(s, i)|
        ensures RecOf(s', Bucket(s, i)[j]) == RecOf(s, Bucket(s, i)[j])
      {
        BucketIsTagged(s, o, i, j);
        assert HashLinked(s, o, Bucket(s, i)[j]);
      }
      BucketsFrame(s, s');
    }
  }

  /** What waits in the queue is not what the export thread has already written. */
  lemma QueueNotHand(s: State, o: Own, i: nat)
    requires NodeLists(s, o) && i < |Queue(s)| && s.epc.Exported?
    ensures Queue(s)[i] != s.epc.n
  {
    var n := Queue(s)[i];
    assert Tagged(NodesAt(s, NActive), o.node, NActive);
    assert Tagged(NodesAt(s, NFlags), o.node, NFlags);
    assert Tagged(NodesAt(s, NExpired), o.node, NExpired);
    assert Tagged(NodesAt(s, NExporter), o.node, NExporter);
    assert HandNodes(s)[0] == s.epc.n;
    if i < |s.expired| {
      assert n == s.expired[i];
    } else if i < |s.expired| + |s.flags| {
      assert n == s.flags[i - |s.expired|];
    } else {
      assert n == s.active[|s.active| - 1 - (i - |s.expired| - |s.flags|)];
    }
  }

  lemma ReleaseNodes(s: State, o: Own)
    requires NodeLists(s, o) && s.epc.Exported? && s.sessUsed != []
    ensures NodeLists(ExportStep(s), o)
  {
    NodeListsFrame(s, ExportStep(s), o);
  }

  lemma ReleaseControl(s: State, o: Own)
    requires SessionLists(s, o) && Books(s) && Control(s) && s.epc.Exported?
    requires s.epc.x < |o.sess| && o.sess[s.epc.x] == SHeld
    requires Records(ExportStep(s)) == Records(s)
    ensures Control(ExportStep(s))
  {
    ReleaseBooks(s, o);
    if s.pc.SecondNode? {
      assert AuxSessions(s)[0] == s.aux.value;
    }
  }

  lemma ReleaseKeeps(s: State, o: Own) returns (o': Own)
    requires Inv(s, o) && s.epc.Exported?
    ensures Inv(ExportStep(s), o')
  {
    HandIsOuter(s, o);
    ReleaseBooks(s, o);
    o' := ReleaseSessions(s, o);
    ReleaseNodes(s, o);
    ReleaseLinks(s, o, o');
    ReleaseRecords(s, o);
    TimelineFrame(s, ExportStep(s));
    ReleaseControl(s, o);
  }

  // ---------------------------------------------------------------- release the node

  lemma ReturnNodes(s: State, o: Own) returns (o': Own)
    requires NodeLists(s, o) && Counts(s) && s.epc.SessionReleased?
    ensures s.epc.n < |o.node| && o.node[s.epc.n] == NExporter
    ensures o' == o.(node := o.node[s.epc.n := NFree])
    ensures NodeLists(ExportStep(s), o')
  {
    var n := s.epc.n;
    assert HandNodes(s)[0] == n;
    assert HandNodes(ExportStep(s)) == Unlink(HandNodes(s), n);
    MoveNode(s, ExportStep(s), o, n, NExporter, NFree);
    o' := o.(node := o.node[n := NFree]);
  }

  lemma ReturnLinks(s: State, o: Own, o': Own)
    requires Links(s, o) && Counts(s) && s.epc.SessionReleased?
    requires s.epc.n < |o.node| && o.node[s.epc.n] == NExporter
    requires o' == o.(node := o.node[s.epc.n := NFree])
    ensures Links(ExportStep(s), o')
  {
    LinksFrame(s, ExportStep(s), o, o');
  }

  lemma ReturnRest(s: State)
    requires Books(s) && Buckets(s) && Control(s) && s.epc.SessionReleased?
    ensures Records(ExportStep(s)) == Records(s)
    ensures Books(ExportStep(s)) && Buckets(ExportStep(s)) && Control(ExportStep(s))
  {
    assert Queue(ExportStep(s)) == Queue(s);
    RecsAtFrame(s, ExportStep(s), Queue(s));
    BucketsFrame(s, ExportStep(s));
  }

  lemma ReturnKeeps(s: State, o: Own) returns (o': Own)
    requires Inv(s, o) && s.epc.SessionReleased?
    ensures Inv(ExportStep(s), o')
  {
    o' := ReturnNodes(s, o);
    SessionListsFrame(s, ExportStep(s), o, o');
    ReturnLinks(s, o, o');
    ReturnRest(s);
    TimelineFrame(s, ExportStep(s));
  }

  // ---------------------------------------------------------------- nothing left

  lemma FinishNodes(s: State, o: Own)
    requires NodeLists(s, o) && SessionLists(s, o) && s.epc.Waiting? && s.expired == []
    ensures NodeLists(ExportStep(s), o) && SessionLists(ExportStep(s), o)
  {
    NodeListsFrame(s, ExportStep(s), o);
    SessionListsFrame(s, ExportStep(s), o, o);
  }

  lemma FinishRecords(s: State)
    requires Timeline(s) && Buckets(s) && s.epc.Waiting? && s.expired == []
    ensures Timeline(ExportStep(s)) && Buckets(ExportStep(s))
  {
    var s' := ExportStep(s);
    assert Queue(s') == Queue(s);
    RecsAtFrame(s, s', Queue(s));
    TimelineFrame(s, s');
    BucketsFrame(s, s');
  }

  lemma FinishRest(s: State)
    requires Books(s) && Control(s) && s.epc.Waiting? && s.expired == []
    ensures Books(ExportStep(s)) && (Records(ExportStep(s)) == Records(s) ==> Control(ExportStep(s)))
  {
  }

  lemma FinishKeeps(s: State, o: Own)
    requires Inv(s, o) && s.epc.Waiting? && s.expired == []
    ensures Inv(ExportStep(s), o)
  {
    FinishNodes(s, o);
    LinksFrame(s, ExportStep(s), o, o);
    FinishRecords(s);
    FinishRest(s);
  }

  lemma ExportKeeps(s: State, o: Own) returns (o': Own)
    requires Inv(s, o)
    ensures Inv(ExportStep(s), o')
  {
    o' := o;
    match s.epc
    case Waiting =>
      if s.expired != [] {
        o' := PopKeeps(s, o);
      } else {
        FinishKeeps(s, o);
      }
    case Popped(_) => WriteKeeps(s, o);
    case Exported(_, _) => o' := ReleaseKeeps(s, o);
    case SessionReleased(_) => o' := ReturnKeeps(s, o);
    case Finished =>
  }
}
