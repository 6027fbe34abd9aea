/** A typedef that is queued twice: `typedef int T(struct S); struct S { T *f; };`. */
module BtfTwice {
  import opened BtfTypes
  import opened BtfRefs
  import opened BtfOrder
  import opened BtfTraversal
  import opened BtfLoops
  import opened BtfOnce

  /** 1 is `int`, 2 is S, 3 is `T *`, 4 is T and 5 the prototype. */
  const TWICE: Graph := [
    VOID_TYPE,
    BtfType(1, Info(INT, 0, false), 4, [Slot(0, 0, 32)]),
    BtfType(2, Info(STRUCT, 1, false), 8, [Slot(3, 3, 0)]),
    BtfType(0, Info(PTR, 0, false), 4, []),
    BtfType(4, Info(TYPEDEF, 0, false), 5, []),
    BtfType(0, Info(FUNC_PROTO, 1, false), 1, [Slot(0, 2, 0)])
  ]

  const RANK: seq<nat> := [0, 0, 0, 3, 2, 1]

  const MARKS: seq<bool> := [false, false, true, true, true, true]

  // ---------------------------------------------------------------- the graph

  lemma TypesAreGood()
    ensures GoodType(TWICE[0], 6) && GoodType(TWICE[1], 6) && GoodType(TWICE[2], 6)
    ensures GoodType(TWICE[3], 6) && GoodType(TWICE[4], 6) && GoodType(TWICE[5], 6)
  {
    ChildrenAre();
    KindsAre();
  }

  lemma KindsAre()
    ensures TWICE[0].Kind() == VOID && TWICE[1].Kind() == INT && TWICE[2].Kind() == STRUCT
    ensures TWICE[3].Kind() == PTR && TWICE[4].Kind() == TYPEDEF && TWICE[5].Kind() == FUNC_PROTO
  {
  }

  lemma ChildrenAre()
    ensures Children(TWICE[0]) == [] && Children(TWICE[1]) == [] && Children(TWICE[2]) == [3]
    ensures Children(TWICE[3]) == [4] && Children(TWICE[4]) == [5] && Children(TWICE[5]) == [1, 2]
  {
  }

  lemma GraphIsGood()
    ensures GoodGraph(TWICE)
  {
    TypesAreGood();
    forall id | 0 <= id < |TWICE|
      ensures GoodType(TWICE[id], |TWICE|)
    {
      assert id == 0 || id == 1 || id == 2 || id == 3 || id == 4 || id == 5;
    }
  }

  lemma GraphIsRanked()
    ensures GoodGraph(TWICE) && CyclesAreComposite(TWICE, RANK)
  {
    GraphIsGood();
    RefsAreLow();
  }

  lemma RefsAreLow()
    ensures LowRefs(TWICE, RANK, 3, 0) && LowRefs(TWICE, RANK, 4, 0) && LowRefs(TWICE, RANK, 5, 0)
  {
    ChildrenAre();
  }

  lemma CallsAre(ptr: bool)
    requires GoodGraph(TWICE)
    ensures Calls(TWICE, Place(1, ptr)) == [] && Calls(TWICE, Place(2, false)) == [Place(3, false)]
    ensures Calls(TWICE, Place(3, ptr)) == [Place(4, true)] && Calls(TWICE, Place(4, ptr)) == [Place(5, ptr)]
    ensures Calls(TWICE, Place(5, ptr)) == [Place(1, ptr), Place(2, ptr)]
  {
    ChildrenAre();
  }

  // ---------------------------------------------------------------- single calls

  ghost predicate Usable(w: Work) {
    Prepared(TWICE, MARKS, RANK, w)
  }

  ghost function Run(w: Work, id: nat, ptr: bool): Outcome
    requires Usable(w) && id < |TWICE|
  {
    Traverse(TWICE, MARKS, RANK, w, Place(id, ptr))
  }

  lemma RunInt(w: Work, ptr: bool)
    requires Usable(w) && w.st[1] == NOT_ORDERED
    ensures Run(w, 1, ptr) == Outcome(0, w.Mark(1, ORDERED))
  {
    KindsAre();
    CallsAre(ptr);
    CallNone(TWICE, MARKS, RANK, w, Place(1, ptr));
  }

  lemma RunStruct(w: Work, r: Outcome)
    requires Usable(w) && w.st[2] == NOT_ORDERED && Usable(w.Mark(2, ORDERING))
    requires Run(w.Mark(2, ORDERING), 3, false) == r && r.err >= 0
    ensures Run(w, 2, false) == Outcome(1, r.w.Push(2).Mark(2, ORDERED))
  {
    KindsAre();
    CallsAre(false);
    CallOne(TWICE, MARKS, RANK, w, Place(2, false), r);
  }

  lemma RunPointer(w: Work, ptr: bool, r: Outcome)
    requires Usable(w) && w.st[3] == NOT_ORDERED && Run(w, 4, true) == r
    ensures Run(w, 3, ptr) == Outcome(r.err, r.w.Mark(3, ORDERED))
  {
    KindsAre();
    CallsAre(ptr);
    CallOne(TWICE, MARKS, RANK, w, Place(3, ptr), r);
  }

  lemma RunTypedef(w: Work, ptr: bool, r: Outcome)
    requires Usable(w) && w.st[4] == NOT_ORDERED && Run(w, 5, ptr) == r && r.err >= 0
    ensures Run(w, 4, ptr) == if ptr && r.err == 0 then r else Outcome(1, r.w.Push(4).Mark(4, ORDERED))
  {
    KindsAre();
    CallsAre(ptr);
    CallOne(TWICE, MARKS, RANK, w, Place(4, ptr), r);
  }

  lemma RunProto(w: Work, ptr: bool, a: Outcome, b: Outcome)
    requires Usable(w) && w.st[5] == NOT_ORDERED && Run(w, 1, ptr) == a && a.err >= 0
    requires Usable(a.w) && Run(a.w, 2, ptr) == b && b.err >= 0
    ensures Run(w, 5, ptr) == Outcome(if a.err > 0 || b.err > 0 then 1 else 0, b.w)
  {
    KindsAre();
    CallsAre(ptr);
    CallTwo(TWICE, MARKS, RANK, w, Place(5, ptr), a, b);
  }

  /** Nothing is done for what is ordered, nor for S behind a pointer. */
  lemma RunNothing(w: Work, id: nat, ptr: bool)
    requires Usable(w) && id < |TWICE| && (w.st[id] == ORDERED || (id == 2 && ptr))
    ensures Run(w, id, ptr) == Outcome(if w.st[id] == ORDERED then 1 else 0, w)
  {
  }

  // ---------------------------------------------------------------- whole calls

  /** The states of `int`, S, the pointer and T; the prototype is never marked. */
  function At(i: OrderState, s: OrderState, p: OrderState, t: OrderState, e: seq<nat>): Work {
    Work([ORDERED, i, s, p, t, NOT_ORDERED], e)
  }

  lemma AtIs(i: OrderState, s: OrderState, p: OrderState, t: OrderState, e: seq<nat>, x: OrderState)
    ensures var w := At(i, s, p, t, e);
      && w.Mark(1, x) == At(x, s, p, t, e) && w.Mark(2, x) == At(i, x, p, t, e)
      && w.Mark(3, x) == At(i, s, x, t, e) && w.Mark(4, x) == At(i, s, p, x, e)
    ensures Usable(At(i, s, p, t, e))
  {
    AtIsUsable(i, s, p, t, e);
    AtMarked(i, s, p, t, x);
  }

  lemma AtMarked(i: OrderState, s: OrderState, p: OrderState, t: OrderState, x: OrderState)
    ensures var w := [ORDERED, i, s, p, t, NOT_ORDERED];
      && w[1 := x] == [ORDERED, x, s, p, t, NOT_ORDERED] && w[2 := x] == [ORDERED, i, x, p, t, NOT_ORDERED]
      && w[3 := x] == [ORDERED, i, s, x, t, NOT_ORDERED] && w[4 := x] == [ORDERED, i, s, p, x, NOT_ORDERED]
  {
    var w := [ORDERED, i, s, p, t, NOT_ORDERED];
    assert w[1 := x] == [ORDERED, x, s, p, t, NOT_ORDERED];
    assert w[2 := x] == [ORDERED, i, x, p, t, NOT_ORDERED];
    assert w[3 := x] == [ORDERED, i, s, x, t, NOT_ORDERED];
    assert w[4 := x] == [ORDERED, i, s, p, x, NOT_ORDERED];
  }

  lemma AtIsUsable(i: OrderState, s: OrderState, p: OrderState, t: OrderState, e: seq<nat>)
    ensures Usable(At(i, s, p, t, e))
  {
    GraphIsRanked();
  }

  const N := NOT_ORDERED

  const O := ORDERED

  const START := At(N, N, N, N, [])

  /** Met through the pointer in S the typedef is queued, because `int` is ordered by then. */
  lemma TypedefInStruct()
    ensures Usable(At(O, ORDERING, N, N, []))
    ensures Run(At(O, ORDERING, N, N, []), 4, true) == Outcome(1, At(O, ORDERING, N, O, [4]))
  {
    var w := At(O, ORDERING, N, N, []);
    AtIs(O, ORDERING, N, N, [], O);
    AtIs(O, ORDERING, N, N, [4], O);
    RunNothing(w, 1, true);
    RunNothing(w, 2, true);
    RunProto(w, true, Outcome(1, w), Outcome(0, w));
    RunTypedef(w, true, Outcome(1, w));
  }

  lemma StructByValue()
    ensures Usable(At(O, N, N, N, []))
    ensures Run(At(O, N, N, N, []), 2, false) == Outcome(1, At(O, O, O, O, [4, 2]))
  {
    var w, o := At(O, N, N, N, []), At(O, ORDERING, N, N, []);
    AtIs(O, N, N, N, [], ORDERING);
    AtIs(O, ORDERING, N, O, [4], O);
    AtIs(O, ORDERING, O, O, [4, 2], O);
    TypedefInStruct();
    RunPointer(o, false, Outcome(1, At(O, ORDERING, N, O, [4])));
    RunStruct(w, Outcome(1, At(O, ORDERING, O, O, [4])));
  }

  /** Dumping T first queues T, S and T again. */
  lemma TypedefQueuedTwice()
    ensures Usable(START) && Run(START, 4, false) == Outcome(1, At(O, O, O, O, [4, 2, 4]))
  {
    var w, r := At(O, N, N, N, []), At(O, O, O, O, [4, 2]);
    AtIs(N, N, N, N, [], O);
    AtIs(O, O, O, O, [4, 2], O);
    AtIs(O, O, O, O, [4, 2, 4], O);
    RunInt(START, false);
    StructByValue();
    RunProto(START, false, Outcome(0, w), Outcome(1, r));
    RunTypedef(START, false, Outcome(1, r));
  }

  /** Dumping the pointer to T first queues nothing. */
  lemma PointerFirst()
    ensures Usable(START) && Run(START, 3, false) == Outcome(0, At(O, N, O, N, []))
  {
    var w := At(O, N, N, N, []);
    AtIs(N, N, N, N, [], O);
    AtIs(O, N, N, N, [], O);
    RunInt(START, true);
    RunNothing(w, 2, true);
    RunProto(START, true, Outcome(0, w), Outcome(0, w));
    RunTypedef(START, true, Outcome(0, w));
    RunPointer(START, false, Outcome(0, w));
  }

  lemma PointerThenTypedef()
    ensures Usable(At(O, N, O, N, [])) && Run(At(O, N, O, N, []), 4, false) == Outcome(1, At(O, O, O, O, [2, 4]))
  {
    var w, r := At(O, N, O, N, []), At(O, O, O, N, [2]);
    StructAfterPointer();
    AtIs(O, N, O, N, [], O);
    AtIs(O, O, O, N, [2], O);
    AtIs(O, O, O, N, [2, 4], O);
    RunNothing(w, 1, false);
    RunProto(w, false, Outcome(1, w), Outcome(1, r));
    RunTypedef(w, false, Outcome(1, r));
  }

  lemma StructAfterPointer()
    ensures Usable(At(O, N, O, N, [])) && Run(At(O, N, O, N, []), 2, false) == Outcome(1, At(O, O, O, N, [2]))
  {
    var w, o := At(O, N, O, N, []), At(O, ORDERING, O, N, []);
    AtIs(O, N, O, N, [], ORDERING);
    AtIs(O, ORDERING, O, N, [], O);
    AtIs(O, ORDERING, O, N, [2], O);
    RunNothing(o, 3, false);
    RunStruct(w, Outcome(1, o));
  }

  /** Dumping T after that queues S and T, once each: a reentrant typedef need not be queued twice. */
  lemma TypedefQueuedOnce()
    ensures Usable(START) && Usable(Run(START, 3, false).w)
    ensures Run(Run(START, 3, false).w, 4, false) == Outcome(1, At(O, O, O, O, [2, 4]))
  {
    PointerFirst();
    PointerThenTypedef();
  }

  lemma LeadsVia(p: Place, j: nat, path: seq<nat>)
    requires GoodGraph(TWICE) && p.id < |TWICE| && j < |Out(TWICE, true, p)|
    requires Leads(TWICE, true, Out(TWICE, true, p)[j], Place(4, true), path)
    ensures Leads(TWICE, true, p, Place(4, true), [j] + path)
  {
    assert ([j] + path)[1..] == path;
  }

  lemma TypedefIsReentrant()
    ensures GoodGraph(TWICE) && CyclesAreComposite(TWICE, RANK) && Reentrant(TWICE, RANK, 4)
  {
    GraphIsRanked();
    CallsAre(false);
    BaseNext(TWICE, RANK, Place(4, false));
    LeadsVia(Place(3, false), 0, []);
    LeadsVia(Place(2, false), 0, [0] + []);
    LeadsVia(Place(5, false), 1, [0] + ([0] + []));
    LeadsVia(Place(4, false), 0, [1] + ([0] + ([0] + [])));
  }
}
