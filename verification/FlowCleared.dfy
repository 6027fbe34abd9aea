/** Sessions that no flow uses are cleared, so the parser always writes into a cleared flow. */
module FlowCleared {
  import opened FlowTypes
  import opened Frames
  import opened Lists
  import opened FlowState
  import opened FlowInvariant
  import opened FlowFrames
  import opened FlowProcess
  import opened FlowExport

  lemma ClearedFrame(s: State, s': State, o: Own)
    requires SessionLists(s, o) && Cleared(s)
    requires s'.wrapData == s.wrapData && s'.sessFree == s.sessFree
    requires forall x :: 0 <= x < |o.sess| && o.sess[x] == SFree ==> Sess(s', x) == Sess(s, x)
    requires !s'.pc.ReadingWrapper? && (s'.pc.Filling? && s'.aux.Some? ==> Sess(s', s'.aux.value).key == ZERO_KEY)
    ensures Cleared(s')
  {
    assert FreeSessions(s') == FreeSessions(s);
    forall i | 0 <= i < |FreeSessions(s')|
      ensures Sess(s', FreeSessions(s')[i]).key == ZERO_KEY
    {
      assert Sess(s, FreeSessions(s)[i]).key == ZERO_KEY;
    }
  }

  /** The parser sees a cleared flow. */
  lemma ParsesAfresh(s: State, f: Frame)
    requires Cleared(s) && s.pc == Filling(f) && s.aux.Some?
    ensures ParseInto(f, Sess(s, s.aux.value).key) == Parse(f)
  {
  }

  lemma CleaningClears(s: State, o: Own)
    requires SessionLists(s, o) && Cleared(s) && s.pc.Cleaning?
    ensures Cleared(ProcessStep(s))
  {
    ClearedFrame(s, ProcessStep(s), o);
  }

  lemma ParsingClears(s: State, o: Own, f: Frame)
    requires SessionLists(s, o) && Cleared(s) && s.pc == Parsing(f)
    ensures Cleared(ParsingStep(s, f))
  {
    var s' := ParsingStep(s, f);
    if f.caplen >= ETH_HLEN && s.aux.None? && |s.sessFree| > 1 {
      assert FreeSessions(s') == FreeSessions(s)[1..] && s'.pc.popped == FreeSessions(s)[0];
    } else {
      AuxIsNotHeld(s, o);
      ClearedFrame(s, s', o);
    }
  }

  lemma ReadingClears(s: State, o: Own)
    requires SessionLists(s, o) && Cleared(s) && Control(s) && s.pc.ReadingWrapper?
    ensures Cleared(ProcessStep(s))
  {
    ClearedFrame(s, ProcessStep(s), o);
  }

  lemma InsertLeaves(s: State, o: Own, f: Frame, x: nat, k: Key)
    requires Shapes(s, o) && NodeLists(s, o) && Links(s, o)
    ensures var s' := InsertFlow(s, f, x, k);
      && s'.wrapData == s.wrapData && s'.sessFree == s.sessFree
      && (s'.fault || s'.pc.Idle? || s'.pc.SecondNode?)
      && forall y :: 0 <= y < |o.sess| && o.sess[y] == SFree ==> Sess(s', y) == Sess(s, y)
  {
    var b := Bucket(s, GetIndex(k));
    var i := FirstMatch(s, b, k);
    if i < |b| {
      BucketIsTagged(s, o, GetIndex(k), i);
      assert HashLinked(s, o, b[i]);
    }
  }

  lemma PacketClears(s: State, o: Own, f: Frame, k: Key)
    requires Shapes(s, o) && NodeLists(s, o) && SessionLists(s, o) && Links(s, o)
    requires s.pc == Filling(f) && s.aux.Some? && s.aux.value < |o.sess| && o.sess[s.aux.value] == SAux
    ensures var s' := InsertFlow(Filled(s, f, k), f, s.aux.value, k);
      && s'.wrapData == s.wrapData && s'.sessFree == s.sessFree
      && (s'.fault || s'.pc.Idle? || s'.pc.SecondNode?)
      && forall y :: 0 <= y < |o.sess| && o.sess[y] == SFree ==> Sess(s', y) == Sess(s, y)
  {
    var t := Filled(s, f, k);
    NodeListsFrame(s, t, o);
    LinksFrame(s, t, o, o);
    InsertLeaves(t, o, f, s.aux.value, k);
  }

  lemma FillingClears(s: State, o: Own, f: Frame)
    requires Shapes(s, o) && NodeLists(s, o) && SessionLists(s, o) && Links(s, o) && Cleared(s) && s.pc == Filling(f)
    requires !FillingStep(s, f).fault
    ensures Cleared(FillingStep(s, f))
  {
    AuxIsNotHeld(s, o);
    ParsesAfresh(s, f);
    if Parse(f).FlowPacket? {
      FillingInserts(s, f, Parse(f).key);
      PacketClears(s, o, f, Parse(f).key);
    }
    ClearedFrame(s, FillingStep(s, f), o);
  }

  lemma SecondNodeClears(s: State, o: Own)
    requires SessionLists(s, o) && Cleared(s) && s.pc.SecondNode?
    ensures Cleared(ProcessStep(s))
  {
    AuxIsNotHeld(s, o);
    ClearedFrame(s, ProcessStep(s), o);
  }

  lemma ProcessClears(s: State, o: Own)
    requires Inv(s, o) && Cleared(s) && !ProcessStep(s).fault
    ensures Cleared(ProcessStep(s))
  {
    match s.pc
    case Idle =>
    case Cleaning(_) => CleaningClears(s, o);
    case Parsing(f) => ParsingClears(s, o, f);
    case ReadingWrapper(_, _, _) => ReadingClears(s, o);
    case Filling(f) => FillingClears(s, o, f);
    case SecondNode(_, _) => SecondNodeClears(s, o);
    case Stopped =>
  }

  lemma ReleaseClears(s: State, o: Own)
    requires NodeLists(s, o) && SessionLists(s, o) && Links(s, o) && Books(s) && Control(s) && Cleared(s)
    requires s.epc.Exported?
    ensures Cleared(ExportStep(s))
  {
    var s', x := ExportStep(s), s.epc.x;
    HandIsOuter(s, o);
    ReleaseBooks(s, o);
    FreeAfterRelease(s, o);
    AuxIsNotHeld(s, o);
    forall i | 0 <= i < |FreeSessions(s')|
      ensures Sess(s', FreeSessions(s')[i]).key == ZERO_KEY
    {
      if i < |FreeSessions(s)| {
        assert Sess(s, FreeSessions(s)[i]).key == ZERO_KEY;
      }
    }
    if s.pc.ReadingWrapper? {
      assert AuxSessions(s)[0] == s.pc.popped;
    }
  }

  lemma ExportClears(s: State, o: Own)
    requires Inv(s, o) && Cleared(s)
    ensures Cleared(ExportStep(s))
  {
    if s.epc.Exported? {
      ReleaseClears(s, o);
    } else {
      assert FreeSessions(ExportStep(s)) == FreeSessions(s);
    }
  }

  lemma ArriveClears(s: State, f: Frame)
    requires Cleared(s) && s.pc.Idle?
    ensures Cleared(ArriveStep(s, f))
  {
    assert FreeSessions(ArriveStep(s, f)) == FreeSessions(s);
  }

  /** Every step leaves the sessions of the pool cleared. */
  lemma StepClears(s: State, o: Own, e: Event)
    requires Inv(s, o) && Cleared(s) && !Step(s, e).fault
    ensures Cleared(Step(s, e))
  {
    match e
    case Arrive(f) =>
      if s.pc.Idle? {
        ArriveClears(s, f);
      }
    case Process => ProcessClears(s, o);
    case Export => ExportClears(s, o);
    case Shutdown =>
      assert FreeSessions(Step(s, e)) == FreeSessions(s);
  }
}
