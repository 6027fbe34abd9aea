/** Which definitions the traversal can queue twice: a typedef of a function that is met again, through a
    pointer, while it is being ordered. */
module BtfOnce {
  import opened BtfTypes
  import opened BtfRefs
  import opened BtfOrder
  import opened BtfTraversal
  import opened BtfLoops
  import opened BtfOutcome
  import opened BtfDumpSteps

  /** Typedef `id` names a function, and by value it leads to itself behind a pointer. */
  ghost predicate Reentrant(g: Graph, rank: seq<nat>, id: nat)
    requires GoodGraph(g) && CyclesAreComposite(g, rank) && id < |g|
  {
    && g[Base(g, rank, id)].Kind() == FUNC_PROTO
    && exists path: seq<nat> :: path != [] && Leads(g, true, Place(id, false), Place(id, true), path)
  }

  /** No typedef is queued twice unless it is reentrant. */
  ghost predicate Once(g: Graph, rank: seq<nat>, e: seq<nat>)
    requires GoodGraph(g) && CyclesAreComposite(g, rank)
  {
    forall i, k :: 0 <= i < k < |e| && e[i] == e[k] && e[k] < |g| && g[e[k]].Kind() == TYPEDEF ==>
      Reentrant(g, rank, e[k])
  }

  // ---------------------------------------------------------------- what is ordered is reached

  /** Some nonempty path leads from `p` to type `x`. */
  ghost predicate Reaches(g: Graph, p: Place, x: nat)
    requires GoodGraph(g) && p.id < |g|
  {
    exists ptr: bool, path: seq<nat> :: path != [] && Leads(g, true, p, Place(x, ptr), path)
  }

  ghost predicate NewlyOrdered(st: seq<OrderState>, st': seq<OrderState>, x: nat) {
    x < |st| && x < |st'| && st[x] != ORDERED && st'[x] == ORDERED
  }

  ghost predicate ReachCall(g: Graph, w: Work, p: Place, r: Outcome) {
    GoodGraph(g) && p.id < |g| ==>
      forall x :: 0 <= x < |g| && NewlyOrdered(w.st, r.w.st, x) ==> x == p.id || Reaches(g, p, x)
  }

  ghost predicate ReachRest(g: Graph, w: Work, p: Place, r: Outcome) {
    GoodGraph(g) && p.id < |g| ==>
      forall x :: 0 <= x < |g| && NewlyOrdered(w.st, r.w.st, x) ==> Reaches(g, p, x)
  }

  lemma ReachesNext(g: Graph, p: Place, j: nat, x: nat)
    requires GoodGraph(g) && p.id < |g| && j < |Calls(g, p)|
    requires x == Calls(g, p)[j].id || Reaches(g, Calls(g, p)[j], x)
    ensures Reaches(g, p, x)
  {
    var c := Calls(g, p)[j];
    LeadsOne(g, true, p, j);
    if Reaches(g, c, x) {
      var ptr, path :| path != [] && Leads(g, true, c, Place(x, ptr), path);
      LeadsOn(g, true, p, c, Place(x, ptr), [j], path);
      assert [j] + path != [];
    } else {
      assert c == Place(x, c.ptr);
    }
  }

  lemma NextReach(g: Graph, referenced: seq<bool>, rank: seq<nat>, w: Work, p: Place, j: nat, strong: int,
                  r: Outcome, r': Outcome)
    requires Entered(g, referenced, rank, w, p, j, strong) && j < |Calls(g, p)| && Possible(w, r)
    requires ReachCall(g, w, Calls(g, p)[j], r)
    requires if r.err < 0 then r' == r else ReachRest(g, r.w, p, r')
    ensures ReachRest(g, w, p, r')
  {
    forall x | 0 <= x < |g| && NewlyOrdered(w.st, r'.w.st, x)
      ensures Reaches(g, p, x)
    {
      if r.w.st[x] == ORDERED {
        ReachesNext(g, p, j, x);
      }
    }
  }

  lemma ClosingReach(g: Graph, referenced: seq<bool>, rank: seq<nat>, w: Work, p: Place, r: Outcome)
    requires Closing(g, referenced, rank, w, p, r) && ReachRest(g, Open(g, w, p.id), p, r)
    ensures ReachCall(g, w, p, Close(g, referenced, p, r))
  {
    var c, o := Close(g, referenced, p, r), Open(g, w, p.id);
    assert c.w.st == r.w.st || c.w.st == r.w.st[p.id := ORDERED];
    forall x | 0 <= x < |g| && NewlyOrdered(w.st, c.w.st, x) && x != p.id
      ensures Reaches(g, p, x)
    {
      assert r.w.st[x] == ORDERED && o.st[x] == w.st[x];
    }
  }

  // ---------------------------------------------------------------- what is ordered is based on ordered types

  ghost predicate IsCompositeBase(g: Graph, rank: seq<nat>, id: nat)
    requires GoodGraph(g) && CyclesAreComposite(g, rank) && id < |g|
  {
    IsComposite(g[Base(g, rank, id)].Kind())
  }

  ghost predicate BasesOrdered(g: Graph, rank: seq<nat>, st: seq<OrderState>)
    requires GoodGraph(g) && CyclesAreComposite(g, rank)
  {
    |st| == |g| && forall u {:trigger st[u]} :: 0 <= u < |g| && st[u] == ORDERED && IsCompositeBase(g, rank, u) ==>
      st[Base(g, rank, u)] == ORDERED
  }

  /** Of the types based on `b` only those up to `level` were ordered meanwhile. */
  ghost predicate NewBelow(g: Graph, rank: seq<nat>, st: seq<OrderState>, st': seq<OrderState>, b: nat, level: nat)
    requires GoodGraph(g) && CyclesAreComposite(g, rank)
  {
    forall u :: 0 <= u < |g| && NewlyOrdered(st, st', u) && Base(g, rank, u) == b ==>
      Level(g, rank, u) <= level
  }

  /** What a call that ended in `r` did about the base of `id`, up to `level`. */
  ghost predicate BaseDone(g: Graph, rank: seq<nat>, w: Work, p: Place, r: Outcome, level: nat)
    requires GoodGraph(g) && CyclesAreComposite(g, rank) && p.id < |g| == |r.w.st|
  {
    var b := Base(g, rank, p.id);
    && (r.err == 1 || !p.ptr ==> r.w.st[b] == ORDERED)
    && NewBelow(g, rank, w.st, r.w.st, b, level)
  }

  ghost predicate BaseCall(g: Graph, rank: seq<nat>, w: Work, p: Place, r: Outcome) {
    GoodGraph(g) && CyclesAreComposite(g, rank) && p.id < |g| && BasesOrdered(g, rank, w.st) && r.err >= 0 ==>
      && BasesOrdered(g, rank, r.w.st)
      && (IsCompositeBase(g, rank, p.id) ==> BaseDone(g, rank, w, p, r, Level(g, rank, p.id)))
  }

  ghost predicate BaseRest(g: Graph, rank: seq<nat>, w: Work, p: Place, j: nat, strong: int, r: Outcome) {
    GoodGraph(g) && CyclesAreComposite(g, rank) && p.id < |g| && BasesOrdered(g, rank, w.st) && r.err >= 0 ==>
      && BasesOrdered(g, rank, r.w.st) && (j == |Calls(g, p)| ==> r == Outcome(strong, w))
      && (j == strong == 0 && IsChain(g[p.id].Kind()) && IsCompositeBase(g, rank, p.id) && Calls(g, p) != [] ==>
            BaseDone(g, rank, w, p, r, Level(g, rank, Calls(g, p)[0].id)))
  }

  lemma AtOnceBase(g: Graph, referenced: seq<bool>, rank: seq<nat>, w: Work, p: Place)
    requires Prepared(g, referenced, rank, w) && p.id < |g| && AtOnce(g, w, p)
    ensures BaseCall(g, rank, w, p, Answer(g, w, p))
  {
  }

  lemma NextBase(g: Graph, referenced: seq<bool>, rank: seq<nat>, w: Work, p: Place, j: nat, strong: int,
                 r: Outcome, r': Outcome)
    requires Entered(g, referenced, rank, w, p, j, strong) && j < |Calls(g, p)| && Possible(w, r)
    requires BaseCall(g, rank, w, Calls(g, p)[j], r)
    requires if r.err < 0 then r' == r
             else BaseRest(g, rank, r.w, p, j + 1, if r.err > 0 then 1 else strong, r')
    ensures BaseRest(g, rank, w, p, j, strong, r')
  {
    if IsChain(g[p.id].Kind()) && j == strong == 0 && r'.err >= 0 && BasesOrdered(g, rank, w.st) {
      BaseNext(g, rank, p);
      var c := Calls(g, p)[0];
      assert r' == Outcome(if r.err > 0 then 1 else 0, r.w);
      if IsCompositeBase(g, rank, p.id) {
        assert BaseDone(g, rank, w, c, r, Level(g, rank, c.id));
        assert BaseDone(g, rank, w, p, r', Level(g, rank, c.id));
      }
    }
  }

  lemma ClosingBase(g: Graph, referenced: seq<bool>, rank: seq<nat>, w: Work, p: Place, r: Outcome)
    requires Closing(g, referenced, rank, w, p, r) && BaseRest(g, rank, Open(g, w, p.id), p, 0, 0, r)
    ensures BaseCall(g, rank, w, p, Close(g, referenced, p, r))
  {
    var c := Close(g, referenced, p, r);
    if BasesOrdered(g, rank, w.st) && c.err >= 0 {
      assert BasesOrdered(g, rank, Open(g, w, p.id).st);
      if IsChain(g[p.id].Kind()) {
        ClosingChain(g, referenced, rank, w, p, r);
      } else if IsComposite(g[p.id].Kind()) {
        ClosingComposite(g, referenced, rank, w, p, r);
      } else {
        assert c.w.st == r.w.st || c.w.st == r.w.st[p.id := ORDERED];
      }
    }
  }

  lemma ClosingChain(g: Graph, referenced: seq<bool>, rank: seq<nat>, w: Work, p: Place, r: Outcome)
    requires Closing(g, referenced, rank, w, p, r) && BaseRest(g, rank, w, p, 0, 0, r) && r.err >= 0
    requires BasesOrdered(g, rank, w.st) && IsChain(g[p.id].Kind())
    ensures BaseCall(g, rank, w, p, Close(g, referenced, p, r))
  {
    var c := Close(g, referenced, p, r);
    BaseNext(g, rank, p);
    assert c.w.st == r.w.st || (c.w.st == r.w.st[p.id := ORDERED] && (r.err == 1 || !p.ptr));
    assert BasesOrdered(g, rank, r.w.st);
    if IsCompositeBase(g, rank, p.id) {
      assert BaseDone(g, rank, w, p, r, Level(g, rank, Calls(g, p)[0].id));
      assert BaseDone(g, rank, w, p, c, Level(g, rank, p.id));
    }
    assert BasesOrdered(g, rank, c.w.st);
  }

  lemma ClosingComposite(g: Graph, referenced: seq<bool>, rank: seq<nat>, w: Work, p: Place, r: Outcome)
    requires Closing(g, referenced, rank, w, p, r) && r.err >= 0 && IsComposite(g[p.id].Kind())
    requires BasesOrdered(g, rank, r.w.st)
    ensures BaseCall(g, rank, w, p, Close(g, referenced, p, r))
  {
    var c := Close(g, referenced, p, r);
    assert r.w.st[p.id] == ORDERING && c.w.st == r.w.st[p.id := ORDERED];
    forall u | 0 <= u < |g| && NewlyOrdered(w.st, c.w.st, u) && Base(g, rank, u) == p.id
      ensures u == p.id
    {
      assert r.w.st[u] != ORDERED;
    }
  }

  // ---------------------------------------------------------------- ordered typedefs are queued

  ghost predicate QueuedTypedefs(g: Graph, w: Work) {
    |w.st| == |g| && forall u {:trigger w.st[u]} :: 0 <= u < |g| && g[u].Kind() == TYPEDEF ==>
      (w.st[u] == ORDERED <==> u in w.e)
  }

  ghost predicate QueuedCall(g: Graph, w: Work, r: Outcome) {
    QueuedTypedefs(g, w) ==> QueuedTypedefs(g, r.w)
  }

  lemma ClosingQueued(g: Graph, referenced: seq<bool>, rank: seq<nat>, w: Work, p: Place, r: Outcome)
    requires Closing(g, referenced, rank, w, p, r) && QueuedCall(g, Open(g, w, p.id), r)
    ensures QueuedCall(g, w, Close(g, referenced, p, r))
  {
    if QueuedTypedefs(g, w) {
      assert QueuedTypedefs(g, Open(g, w, p.id));
    }
  }

  // ---------------------------------------------------------------- what it takes to be queued again

  /** Where the base is no function, struct or union, a typedef leads on alike by value and by pointer. */
  lemma {:induction false} SamePath(g: Graph, rank: seq<nat>, p: Place, p': Place, q: Place, path: seq<nat>)
    requires GoodGraph(g) && CyclesAreComposite(g, rank) && p.id == p'.id < |g| && q.id < |g|
    requires g[Base(g, rank, p.id)].Kind() != FUNC_PROTO && !IsCompositeBase(g, rank, p.id)
    requires Leads(g, true, p, q, path) && (path == [] ==> Level(g, rank, p.id) < Level(g, rank, q.id))
    requires Level(g, rank, p.id) <= Level(g, rank, q.id)
    ensures Leads(g, true, p', q, path)
    decreases |path|
  {
    if path != [] {
      if IsChain(g[p.id].Kind()) {
        BaseNext(g, rank, p);
        BaseNext(g, rank, p');
        SamePath(g, rank, Calls(g, p)[0], Calls(g, p')[0], q, path[1..]);
      } else {
        assert Out(g, true, p) == Out(g, true, p');
      }
    }
  }

  /** A function met by value is not met so again. */
  lemma {:induction false} FunctionOnce(g: Graph, rank: seq<nat>, p: Place, q: Place, path: seq<nat>)
    requires GoodGraph(g) && CyclesAreComposite(g, rank) && FunctionsBehindPointers(g, rank)
    requires p.id < |g| && q.id < |g| && IsFunction(g, rank, p) && Leads(g, true, p, q, path)
    requires path == [] ==> Level(g, rank, p.id) < Level(g, rank, q.id)
    requires Level(g, rank, p.id) <= Level(g, rank, q.id)
    ensures !IsFunction(g, rank, q)
    decreases |path|
  {
    if path != [] {
      var c := Calls(g, p)[path[0]];
      if IsChain(g[p.id].Kind()) {
        BaseNext(g, rank, p);
        FunctionOnce(g, rank, c, q, path[1..]);
      } else {
        SameLeads(g, rank, c, q, path[1..]);
      }
    }
  }

  /** A typedef not based on a struct or union that leads to itself, without a loop, is reentrant. */
  lemma MustReenter(g: Graph, rank: seq<nat>, p: Place, ptr: bool, path: seq<nat>)
    requires GoodGraph(g) && CyclesAreComposite(g, rank) && FunctionsBehindPointers(g, rank)
    requires p.id < |g| && g[p.id].Kind() == TYPEDEF && !IsCompositeBase(g, rank, p.id)
    requires path != [] && Leads(g, true, p, Place(p.id, ptr), path)
    requires Calls(g, p) != [] && LoopFree(g, false, Calls(g, p)[0])
    ensures Reentrant(g, rank, p.id)
  {
    var q := Place(p.id, ptr);
    if IsFunction(g, rank, p) {
      FunctionOnce(g, rank, p, q, path);
      assert p == Place(p.id, false) && q == Place(p.id, true);
    } else {
      CalledLoopFree(g, rank, p);
      SameLeads(g, rank, p, q, path);
      if g[Base(g, rank, p.id)].Kind() != FUNC_PROTO {
        SamePath(g, rank, p, q, q, path);
      }
    }
  }

  lemma CalledLoopFree(g: Graph, rank: seq<nat>, p: Place)
    requires GoodGraph(g) && CyclesAreComposite(g, rank) && FunctionsBehindPointers(g, rank)
    requires p.id < |g| && g[p.id].Kind() == TYPEDEF && !IsFunction(g, rank, p)
    requires Calls(g, p) != [] && LoopFree(g, false, Calls(g, p)[0])
    ensures LoopFree(g, true, p)
  {
    BaseNext(g, rank, p);
    SameLoopFree(g, rank, Calls(g, p)[0]);
    LoopFreeStep(g, true, p);
  }

  // ---------------------------------------------------------------- nothing else is queued again

  /** What the states and the queue satisfy between calls and during them. */
  ghost predicate Steady(g: Graph, rank: seq<nat>, w: Work)
    requires GoodGraph(g) && CyclesAreComposite(g, rank)
  {
    && OrderedFree(g, w.st) && BasesOrdered(g, rank, w.st) && QueuedTypedefs(g, w)
    && (FunctionsBehindPointers(g, rank) ==> Once(g, rank, w.e))
  }

  ghost predicate OnceCall(g: Graph, rank: seq<nat>, w: Work, r: Outcome)
    requires GoodGraph(g) && CyclesAreComposite(g, rank)
  {
    FunctionsBehindPointers(g, rank) && Steady(g, rank, w) && r.err >= 0 ==> Once(g, rank, r.w.e)
  }

  ghost predicate SteadyCall(g: Graph, rank: seq<nat>, w: Work, p: Place, r: Outcome) {
    GoodGraph(g) && CyclesAreComposite(g, rank) ==>
      && FreeCall(g, w, p, r) && BaseCall(g, rank, w, p, r) && ReachCall(g, w, p, r)
      && QueuedCall(g, w, r) && OnceCall(g, rank, w, r)
  }

  ghost predicate SteadyRest(g: Graph, rank: seq<nat>, w: Work, p: Place, j: nat, strong: int, r: Outcome) {
    GoodGraph(g) && CyclesAreComposite(g, rank) ==>
      && FreeRest(g, w, p, j, strong, r) && BaseRest(g, rank, w, p, j, strong, r) && ReachRest(g, w, p, r)
      && QueuedCall(g, w, r) && OnceCall(g, rank, w, r)
  }

  lemma QueuedAgain(g: Graph, referenced: seq<bool>, rank: seq<nat>, w: Work, p: Place, r: Outcome)
    requires Closing(g, referenced, rank, w, p, r) && Steady(g, rank, w) && FunctionsBehindPointers(g, rank)
    requires r.err >= 0 && g[p.id].Kind() == TYPEDEF && p.id in r.w.e
    requires FreeRest(g, w, p, 0, 0, r) && BaseRest(g, rank, w, p, 0, 0, r)
    requires ReachRest(g, w, p, r) && QueuedCall(g, w, r)
    ensures Reentrant(g, rank, p.id)
  {
    BaseNext(g, rank, p);
    assert r.w.st[p.id] == ORDERED && NewlyOrdered(w.st, r.w.st, p.id);
    assert !IsCompositeBase(g, rank, p.id);
    assert AllFree(g, Calls(g, p), 0, 0);
    assert LoopFree(g, false, Calls(g, p)[0]);
    assert Reaches(g, p, p.id);
    var ptr, path :| path != [] && Leads(g, true, p, Place(p.id, ptr), path);
    MustReenter(g, rank, p, ptr, path);
  }

  lemma OnceSnoc(g: Graph, rank: seq<nat>, e: seq<nat>, id: nat)
    requires GoodGraph(g) && CyclesAreComposite(g, rank) && Once(g, rank, e) && id < |g|
    requires g[id].Kind() == TYPEDEF && id in e ==> Reentrant(g, rank, id)
    ensures Once(g, rank, e + [id])
  {
  }

  lemma ClosingOnce(g: Graph, referenced: seq<bool>, rank: seq<nat>, w: Work, p: Place, r: Outcome)
    requires Closing(g, referenced, rank, w, p, r) && SteadyRest(g, rank, Open(g, w, p.id), p, 0, 0, r)
    ensures OnceCall(g, rank, w, Close(g, referenced, p, r))
  {
    var c, o := Close(g, referenced, p, r), Open(g, w, p.id);
    if FunctionsBehindPointers(g, rank) && Steady(g, rank, w) && c.err >= 0 {
      assert Steady(g, rank, o);
      if c.w.e != r.w.e {
        assert c.w.e == r.w.e + [p.id];
        if g[p.id].Kind() == TYPEDEF && p.id in r.w.e {
          QueuedAgain(g, referenced, rank, w, p, r);
        }
        OnceSnoc(g, rank, r.w.e, p.id);
      }
    }
  }

  lemma ClosingSteady(g: Graph, referenced: seq<bool>, rank: seq<nat>, w: Work, p: Place, r: Outcome)
    requires Closing(g, referenced, rank, w, p, r) && SteadyRest(g, rank, Open(g, w, p.id), p, 0, 0, r)
    ensures SteadyCall(g, rank, w, p, Close(g, referenced, p, r))
  {
    ClosingFree(g, referenced, rank, w, p, r);
    ClosingBase(g, referenced, rank, w, p, r);
    ClosingReach(g, referenced, rank, w, p, r);
    ClosingQueued(g, referenced, rank, w, p, r);
    ClosingOnce(g, referenced, rank, w, p, r);
  }

  lemma AtOnceSteady(g: Graph, referenced: seq<bool>, rank: seq<nat>, w: Work, p: Place)
    requires Prepared(g, referenced, rank, w) && p.id < |g| && AtOnce(g, w, p)
    ensures SteadyCall(g, rank, w, p, Answer(g, w, p))
  {
    AtOnceFree(g, referenced, rank, w, p);
    AtOnceBase(g, referenced, rank, w, p);
  }

  lemma NextOnce(g: Graph, rank: seq<nat>, w: Work, p: Place, r: Outcome, r': Outcome)
    requires GoodGraph(g) && CyclesAreComposite(g, rank) && p.id < |g| && SteadyCall(g, rank, w, p, r)
    requires if r.err < 0 then r' == r else OnceCall(g, rank, r.w, r')
    ensures OnceCall(g, rank, w, r')
  {
  }

  lemma NextSteady(g: Graph, referenced: seq<bool>, rank: seq<nat>, w: Work, p: Place, j: nat, strong: int,
                   r: Outcome, r': Outcome)
    requires Entered(g, referenced, rank, w, p, j, strong) && j < |Calls(g, p)| && Possible(w, r)
    requires SteadyCall(g, rank, w, Calls(g, p)[j], r)
    requires if r.err < 0 then r' == r
             else SteadyRest(g, rank, r.w, p, j + 1, if r.err > 0 then 1 else strong, r')
    ensures SteadyRest(g, rank, w, p, j, strong, r')
  {
    NextFree(g, referenced, rank, w, p, j, strong, r, r');
    NextBase(g, referenced, rank, w, p, j, strong, r, r');
    NextReach(g, referenced, rank, w, p, j, strong, r, r');
    NextOnce(g, rank, w, Calls(g, p)[j], r, r');
  }

  lemma CallIsSteady(g: Graph, referenced: seq<bool>, rank: seq<nat>, w: Work, p: Place)
    requires Prepared(g, referenced, rank, w) && p.id < |g|
    ensures SteadyCall(g, rank, w, p, Traverse(g, referenced, rank, w, p))
  {
    var call: CallProperty := (w: Work, p: Place, r: Outcome) => SteadyCall(g, rank, w, p, r);
    var rest: RestProperty := (w: Work, p: Place, j: nat, strong: int, r: Outcome) =>
      SteadyRest(g, rank, w, p, j, strong, r);
    assert HoldsAtOnce(g, referenced, rank, call) by {
      forall w: Work, p: Place | Prepared(g, referenced, rank, w) && p.id < |g| && AtOnce(g, w, p)
        ensures call(w, p, Answer(g, w, p))
      {
        AtOnceSteady(g, referenced, rank, w, p);
      }
    }
    assert HoldsClosing(g, referenced, rank, call, rest) by {
      forall w: Work, p: Place, r: Outcome |
        Closing(g, referenced, rank, w, p, r) && rest(Open(g, w, p.id), p, 0, 0, r)
        ensures call(w, p, Close(g, referenced, p, r))
      {
        ClosingSteady(g, referenced, rank, w, p, r);
      }
    }
    assert HoldsLast(g, referenced, rank, rest) by {
      forall w: Work, p: Place, strong: int |
        GoodGraph(g) && p.id < |g| && Entered(g, referenced, rank, w, p, |Calls(g, p)|, strong)
        ensures rest(w, p, |Calls(g, p)|, strong, Outcome(strong, w))
      {
        LastSteady(g, referenced, rank, w, p, strong);
      }
    }
    assert HoldsNext(g, referenced, rank, call, rest) by {
      forall w: Work, p: Place, j: nat, strong: int, r: Outcome, r': Outcome |
        CallThenRest(g, referenced, rank, w, p, j, strong, r, r', call, rest)
        ensures rest(w, p, j, strong, r')
      {
        NextSteady(g, referenced, rank, w, p, j, strong, r, r');
      }
    }
    TraverseInduction(g, referenced, rank, w, p, call, rest);
  }

  lemma LastSteady(g: Graph, referenced: seq<bool>, rank: seq<nat>, w: Work, p: Place, strong: int)
    requires GoodGraph(g) && p.id < |g| && Entered(g, referenced, rank, w, p, |Calls(g, p)|, strong)
    ensures SteadyRest(g, rank, w, p, |Calls(g, p)|, strong, Outcome(strong, w))
  {
  }

  /** A call that succeeds queues no typedef twice but reentrant ones. */
  lemma TraverseOnce(g: Graph, referenced: seq<bool>, rank: seq<nat>, w: Work, p: Place)
    requires Prepared(g, referenced, rank, w) && p.id < |g| && Steady(g, rank, w)
    ensures var r := Traverse(g, referenced, rank, w, p);
      r.err >= 0 ==> Steady(g, rank, r.w)
  {
    CallIsSteady(g, referenced, rank, w, p);
  }

  /** A typedef is queued twice by its own call exactly when the call for what it names has queued it. */
  lemma QueuedTwice(g: Graph, referenced: seq<bool>, rank: seq<nat>, w: Work, p: Place)
    requires Prepared(g, referenced, rank, w) && p.id < |g| && QueuedTypedefs(g, w)
    requires g[p.id].Kind() == TYPEDEF && w.st[p.id] == NOT_ORDERED && Traverse(g, referenced, rank, w, p).err == 1
    ensures var e := Traverse(g, referenced, rank, w, p).w.e;
      (exists i, k :: 0 <= i < k < |e| && e[i] == e[k] == p.id) <==>
      Traverse(g, referenced, rank, w, Calls(g, p)[0]).w.st[p.id] == ORDERED
  {
    BaseNext(g, rank, p);
    var r := Traverse(g, referenced, rank, w, Calls(g, p)[0]);
    CallOne(g, referenced, rank, w, p, r);
    CallQueues(g, referenced, rank, w, Calls(g, p)[0]);
    TwiceInSnoc(r.w.e, p.id);
  }

  lemma CallQueues(g: Graph, referenced: seq<bool>, rank: seq<nat>, w: Work, p: Place)
    requires Prepared(g, referenced, rank, w) && p.id < |g| && QueuedTypedefs(g, w)
    ensures QueuedTypedefs(g, Traverse(g, referenced, rank, w, p).w)
  {
    CallIsSteady(g, referenced, rank, w, p);
  }

  lemma TwiceInSnoc(e: seq<nat>, x: nat)
    ensures var f := e + [x];
      (exists i, k :: 0 <= i < k < |f| && f[i] == f[k] == x) <==> x in e
  {
    var f := e + [x];
    if x in e {
      var i :| 0 <= i < |e| && e[i] == x;
      assert f[i] == f[|e|] == x;
    }
  }

  // ---------------------------------------------------------------- nothing else is queued

  ghost predicate OnlyReached(g: Graph, p: Place, e: seq<nat>, e': seq<nat>)
    requires GoodGraph(g) && p.id < |g|
  {
    forall x {:trigger x in e'} :: x in e' && x !in e ==> x == p.id || (x < |g| && Reaches(g, p, x))
  }

  /** What a call queues for the first time is the type asked for, or the traversal leads to it. */
  lemma QueuesOnlyReached(g: Graph, referenced: seq<bool>, rank: seq<nat>, w: Work, p: Place, x: nat)
    requires Prepared(g, referenced, rank, w) && p.id < |g| && Inv(g, referenced, w.st, w.e) && QueuedTypedefs(g, w)
    requires Traverse(g, referenced, rank, w, p).err >= 0
    requires x in Traverse(g, referenced, rank, w, p).w.e && x !in w.e
    ensures x == p.id || (x < |g| && Reaches(g, p, x))
  {
    var r := Traverse(g, referenced, rank, w, p);
    TraverseKeeps(g, referenced, rank, w, p);
    CallIsSteady(g, referenced, rank, w, p);
    var k :| 0 <= k < |r.w.e| && r.w.e[k] == x;
    assert r.w.e[k] < |g| && IsDef(g, referenced, x);
    assert r.w.st[x] == ORDERED;
    OrderedIsQueued(g, referenced, w, x);
    assert NewlyOrdered(w.st, r.w.st, x);
  }

  lemma CallReaches(g: Graph, referenced: seq<bool>, rank: seq<nat>, w: Work, p: Place)
    requires Prepared(g, referenced, rank, w) && p.id < |g| && Inv(g, referenced, w.st, w.e) && QueuedTypedefs(g, w)
    ensures var r := Traverse(g, referenced, rank, w, p);
      r.err >= 0 ==> OnlyReached(g, p, w.e, r.w.e)
  {
    var r := Traverse(g, referenced, rank, w, p);
    if r.err >= 0 {
      forall x | x in r.w.e && x !in w.e
        ensures x == p.id || (x < |g| && Reaches(g, p, x))
      {
        QueuesOnlyReached(g, referenced, rank, w, p, x);
      }
    }
  }

  lemma OrderedIsQueued(g: Graph, referenced: seq<bool>, w: Work, x: nat)
    requires Inv(g, referenced, w.st, w.e) && x < |g| && IsDef(g, referenced, x)
    ensures w.st[x] == ORDERED ==> x in w.e
  {
    if w.st[x] == ORDERED {
      assert Done(g, referenced, w.e, Place(x, false));
      assert Needs(g, Place(x, false), Place(x, false), []);
    }
  }
}
