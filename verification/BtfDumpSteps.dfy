/** What the depth-first traversal of `btf_dump_order_type` keeps, step by step: the definitions queued
    so far come each after those it needs. */
module BtfDumpSteps {
  import opened BtfTypes
  import opened BtfOrder
  import opened BtfTraversal

  // ---------------------------------------------------------------- what the traversal keeps

  ghost predicate OrderedDone(g: Graph, referenced: seq<bool>, st: seq<OrderState>, e: seq<nat>)
    requires GoodGraph(g)
  {
    |st| == |g| && forall x {:trigger st[x]} :: 0 <= x < |g| && st[x] == ORDERED ==>
      Done(g, referenced, e, Place(x, false))
  }

  ghost predicate EmittedOrdered(g: Graph, referenced: seq<bool>, st: seq<OrderState>, e: seq<nat>) {
    && |st| == |g|
    && (forall x :: 0 <= x < |g| && st[x] == ORDERING ==> IsComposite(g[x].Kind()))
    && (forall k {:trigger e[k]} :: 0 <= k < |e| ==> e[k] < |g| && IsDef(g, referenced, e[k]))
    && (forall k {:trigger e[k]} :: 0 <= k < |e| && e[k] < |g| && g[e[k]].Kind() != TYPEDEF ==> st[e[k]] == ORDERED)
    && (forall i, k :: 0 <= i < k < |e| && e[i] == e[k] && e[k] < |g| ==> g[e[k]].Kind() == TYPEDEF)
  }

  /** `e` lists the definitions queued or emitted so far. */
  ghost predicate Inv(g: Graph, referenced: seq<bool>, st: seq<OrderState>, e: seq<nat>) {
    && GoodGraph(g) && Ordered(g, referenced, e)
    && OrderedDone(g, referenced, st, e) && EmittedOrdered(g, referenced, st, e)
  }

  // ---------------------------------------------------------------- the small steps

  lemma MarkOrdered(g: Graph, referenced: seq<bool>, st: seq<OrderState>, e: seq<nat>, id: nat)
    requires Inv(g, referenced, st, e) && id < |g| && Done(g, referenced, e, Place(id, false))
    ensures Inv(g, referenced, st[id := ORDERED], e)
  {
  }

  lemma AppendOrdered(g: Graph, referenced: seq<bool>, st: seq<OrderState>, e: seq<nat>, id: nat)
    requires Inv(g, referenced, st, e) && id < |g| && Complete(g, referenced, e, Place(id, false))
    requires IsDef(g, referenced, id) && (g[id].Kind() != TYPEDEF ==> st[id] != ORDERED)
    ensures Inv(g, referenced, st[id := ORDERED], e + [id])
    ensures Done(g, referenced, e + [id], Place(id, false))
  {
    OrderedSnoc(g, referenced, e, id);
    CompleteMore(g, referenced, e, e + [id], Place(id, false));
    DoneStep(g, referenced, e + [id], Place(id, false));
    forall x | 0 <= x < |g| && st[x] == ORDERED
      ensures Done(g, referenced, e + [id], Place(x, false))
    {
      DoneMore(g, referenced, e, e + [id], Place(x, false));
    }
  }

  lemma MarkOrdering(g: Graph, referenced: seq<bool>, st: seq<OrderState>, e: seq<nat>, id: nat)
    requires Inv(g, referenced, st, e) && id < |g| && IsComposite(g[id].Kind()) && st[id] == NOT_ORDERED
    ensures Inv(g, referenced, st[id := ORDERING], e)
  {
  }

  /** What a call on place `p` that returned `err` has established. */
  ghost predicate Found(g: Graph, referenced: seq<bool>, e: seq<nat>, p: Place, err: int)
    requires GoodGraph(g) && p.id < |g|
  {
    Done(g, referenced, e, p) && (err == 1 ==> Done(g, referenced, e, Place(p.id, false)))
  }

  lemma FoundByValue(g: Graph, referenced: seq<bool>, e: seq<nat>, id: nat, ptr: bool, err: int)
    requires GoodGraph(g) && id < |g| && Done(g, referenced, e, Place(id, false))
    ensures Found(g, referenced, e, Place(id, ptr), err)
  {
    if ptr {
      DoneByValue(g, referenced, e, id);
    }
  }

  /** Kinds that need no definition are complete at once. */
  lemma LeafIsDone(g: Graph, referenced: seq<bool>, e: seq<nat>, id: nat)
    requires GoodGraph(g) && id < |g| && g[id].Kind() in {INT, FUNC, VAR, DATASEC}
    ensures Done(g, referenced, e, Place(id, false))
  {
    assert Next(g, Place(id, false)) == [];
    DoneStep(g, referenced, e, Place(id, false));
  }

  lemma DoneThrough(g: Graph, referenced: seq<bool>, e: seq<nat>, p: Place)
    requires GoodGraph(g) && p.id < |g| && (g[p.id].Kind() == ARRAY || IsMod(g[p.id].Kind()))
    requires GoodType(g[p.id], |g|) && Children(g[p.id])[0] < |g|
    requires Done(g, referenced, e, Place(Children(g[p.id])[0], p.ptr))
    ensures Done(g, referenced, e, p)
  {
    assert Next(g, p) == [Place(Children(g[p.id])[0], p.ptr)];
    DoneStep(g, referenced, e, p);
  }

  /** Arrays and modifiers pass the answer on. */
  lemma FoundThrough(g: Graph, referenced: seq<bool>, e: seq<nat>, p: Place, err: int)
    requires GoodGraph(g) && p.id < |g| && (g[p.id].Kind() == ARRAY || IsMod(g[p.id].Kind()))
    requires GoodType(g[p.id], |g|) && Children(g[p.id])[0] < |g|
    requires Found(g, referenced, e, Place(Children(g[p.id])[0], p.ptr), err)
    ensures Found(g, referenced, e, p, err)
  {
    DoneThrough(g, referenced, e, p);
    if err == 1 {
      DoneThrough(g, referenced, e, Place(p.id, false));
    }
  }

  // ---------------------------------------------------------------- the whole traversal

  ghost predicate InRange(g: Graph, cs: seq<Place>) {
    forall i :: 0 <= i < |cs| ==> cs[i].id < |g|
  }

  /** The first `n` of the calls `cs` were answered, the only one of several with `err`. */
  ghost predicate Answered(g: Graph, referenced: seq<bool>, e: seq<nat>, cs: seq<Place>, n: nat, err: int)
    requires GoodGraph(g) && InRange(g, cs)
  {
    && n <= |cs| && (n == 0 ==> err <= 0)
    && (forall i {:trigger cs[i]} :: 0 <= i < n ==> Done(g, referenced, e, cs[i]))
    && (n == |cs| == 1 ==> Found(g, referenced, e, cs[0], err))
  }

  lemma AnsweredNext(g: Graph, referenced: seq<bool>, e: seq<nat>, e': seq<nat>, cs: seq<Place>, n: nat,
                     strong: int, err: int)
    requires GoodGraph(g) && InRange(g, cs) && n < |cs| && Answered(g, referenced, e, cs, n, strong)
    requires e <= e' && err <= 1 && Found(g, referenced, e', cs[n], err)
    ensures Answered(g, referenced, e', cs, n + 1, if err > 0 then 1 else strong)
  {
    forall i | 0 <= i < n
      ensures Done(g, referenced, e', cs[i])
    {
      DoneMore(g, referenced, e, e', cs[i]);
    }
    FoundWeaker(g, referenced, e', cs[n], err, if err > 0 then 1 else strong);
  }

  lemma FoundWeaker(g: Graph, referenced: seq<bool>, e: seq<nat>, p: Place, err: int, err': int)
    requires GoodGraph(g) && p.id < |g| && Found(g, referenced, e, p, err)
    ensures Done(g, referenced, e, p) && (err == 1 || err' != 1 ==> Found(g, referenced, e, p, err'))
  {
  }

  /** A call that started with the invariant has kept it, and found what it had to. */
  ghost predicate KeptCall(g: Graph, referenced: seq<bool>, w: Work, p: Place, r: Outcome) {
    GoodGraph(g) && p.id < |g| && Inv(g, referenced, w.st, w.e) && r.err >= 0 ==>
      Inv(g, referenced, r.w.st, r.w.e) && Found(g, referenced, r.w.e, p, r.err)
  }

  /** The same for the calls from the `j`-th on. */
  ghost predicate KeptRest(g: Graph, referenced: seq<bool>, w: Work, p: Place, j: nat, strong: int, r: Outcome) {
    GoodGraph(g) && p.id < |g| && Inv(g, referenced, w.st, w.e) && r.err >= 0 &&
    Answered(g, referenced, w.e, Calls(g, p), j, strong) ==>
      Inv(g, referenced, r.w.st, r.w.e) && Answered(g, referenced, r.w.e, Calls(g, p), |Calls(g, p)|, r.err)
  }

  lemma AtOnceKeeps(g: Graph, referenced: seq<bool>, rank: seq<nat>, w: Work, p: Place)
    requires Prepared(g, referenced, rank, w) && p.id < |g| && AtOnce(g, w, p)
    ensures KeptCall(g, referenced, w, p, Answer(g, w, p))
  {
    if Inv(g, referenced, w.st, w.e) && Answer(g, w, p).err >= 0 {
      if w.st[p.id] == ORDERED {
        FoundByValue(g, referenced, w.e, p.id, p.ptr, 1);
      } else {
        assert Next(g, p) == [];
        DoneStep(g, referenced, w.e, p);
      }
    }
  }

  lemma ClosingKeeps(g: Graph, referenced: seq<bool>, rank: seq<nat>, w: Work, p: Place, r: Outcome)
    requires Closing(g, referenced, rank, w, p, r) && KeptRest(g, referenced, Open(g, w, p.id), p, 0, 0, r)
    ensures KeptCall(g, referenced, w, p, Close(g, referenced, p, r))
  {
    if Inv(g, referenced, w.st, w.e) && Close(g, referenced, p, r).err >= 0 {
      OpenKeeps(g, referenced, w, p.id);
      assert Answered(g, referenced, Open(g, w, p.id).e, Calls(g, p), 0, 0);
      assert g[p.id].Kind() in {ENUM, FWD} ==> Calls(g, p) == [];
      CloseKeeps(g, referenced, p, r);
    }
  }

  lemma OpenKeeps(g: Graph, referenced: seq<bool>, w: Work, id: nat)
    requires Inv(g, referenced, w.st, w.e) && id < |g| && w.st[id] == NOT_ORDERED
    ensures Inv(g, referenced, Open(g, w, id).st, Open(g, w, id).e)
  {
    if IsComposite(g[id].Kind()) {
      MarkOrdering(g, referenced, w.st, w.e, id);
    }
  }

  lemma NextKeeps(g: Graph, referenced: seq<bool>, rank: seq<nat>, w: Work, p: Place, j: nat, strong: int,
                  r: Outcome, r': Outcome)
    requires Entered(g, referenced, rank, w, p, j, strong) && j < |Calls(g, p)| && Possible(w, r)
    requires KeptCall(g, referenced, w, Calls(g, p)[j], r)
    requires if r.err < 0 then r' == r
             else KeptRest(g, referenced, r.w, p, j + 1, if r.err > 0 then 1 else strong, r')
    ensures KeptRest(g, referenced, w, p, j, strong, r')
  {
    if r.err >= 0 && Inv(g, referenced, w.st, w.e) && Answered(g, referenced, w.e, Calls(g, p), j, strong) {
      AnsweredNext(g, referenced, w.e, r.w.e, Calls(g, p), j, strong, r.err);
    }
  }

  /** What the traversal keeps, and what it has queued when it succeeds. */
  lemma TraverseKeeps(g: Graph, referenced: seq<bool>, rank: seq<nat>, w: Work, p: Place)
    requires Prepared(g, referenced, rank, w) && p.id < |g| && Inv(g, referenced, w.st, w.e)
    ensures var r := Traverse(g, referenced, rank, w, p);
      r.err >= 0 ==> Inv(g, referenced, r.w.st, r.w.e) && Found(g, referenced, r.w.e, p, r.err)
  {
    var call: CallProperty := (w: Work, p: Place, r: Outcome) => KeptCall(g, referenced, w, p, r);
    var rest: RestProperty := (w: Work, p: Place, j: nat, strong: int, r: Outcome) =>
      KeptRest(g, referenced, w, p, j, strong, r);
    assert HoldsAtOnce(g, referenced, rank, call) by {
      forall w: Work, p: Place | Prepared(g, referenced, rank, w) && p.id < |g| && AtOnce(g, w, p)
        ensures call(w, p, Answer(g, w, p))
      {
        AtOnceKeeps(g, referenced, rank, w, p);
      }
    }
    assert HoldsClosing(g, referenced, rank, call, rest) by {
      forall w: Work, p: Place, r: Outcome |
        Closing(g, referenced, rank, w, p, r) && rest(Open(g, w, p.id), p, 0, 0, r)
        ensures call(w, p, Close(g, referenced, p, r))
      {
        ClosingKeeps(g, referenced, rank, w, p, r);
      }
    }
    assert HoldsNext(g, referenced, rank, call, rest) by {
      forall w: Work, p: Place, j: nat, strong: int, r: Outcome, r': Outcome |
        CallThenRest(g, referenced, rank, w, p, j, strong, r, r', call, rest)
        ensures rest(w, p, j, strong, r')
      {
        NextKeeps(g, referenced, rank, w, p, j, strong, r, r');
      }
    }
    assert HoldsLast(g, referenced, rank, rest);
    TraverseInduction(g, referenced, rank, w, p, call, rest);
  }

  // ---------------------------------------------------------------- after the calls

  lemma CloseKeeps(g: Graph, referenced: seq<bool>, p: Place, r: Outcome)
    requires Inv(g, referenced, r.w.st, r.w.e) && p.id < |g| == |referenced| && g[p.id].Kind() != VOID && !Weak(g, p)
    requires 0 <= r.err <= 1 && Answered(g, referenced, r.w.e, Calls(g, p), |Calls(g, p)|, r.err)
    requires IsComposite(g[p.id].Kind()) ==> r.w.st[p.id] == ORDERING
    requires g[p.id].Kind() in {ENUM, FWD} ==> r.w.st[p.id] == NOT_ORDERED
    ensures var c := Close(g, referenced, p, r);
      Inv(g, referenced, c.w.st, c.w.e) && Found(g, referenced, c.w.e, p, c.err)
  {
    var t := g[p.id];
    assert GoodType(t, |g|);
    if IsComposite(t.Kind()) {
      CloseComposite(g, referenced, p, r);
    } else if t.Kind() == ENUM || t.Kind() == FWD {
      CloseEnum(g, referenced, p, r.w);
    } else if t.Kind() == TYPEDEF {
      CloseTypedef(g, referenced, p, r);
    } else if t.Kind() == FUNC_PROTO {
      CloseFuncProto(g, referenced, p, r);
    } else if Through(t.Kind()) {
      FoundThrough(g, referenced, r.w.e, p, r.err);
    } else {
      CloseOther(g, referenced, p, r);
    }
  }

  /** Pointers, and kinds that need no definition. */
  lemma CloseOther(g: Graph, referenced: seq<bool>, p: Place, r: Outcome)
    requires Inv(g, referenced, r.w.st, r.w.e) && p.id < |g| == |referenced|
    requires g[p.id].Kind() in {PTR, INT, FUNC, VAR, DATASEC}
    requires 0 <= r.err && Answered(g, referenced, r.w.e, Calls(g, p), |Calls(g, p)|, r.err)
    ensures var c := Close(g, referenced, p, r);
      Inv(g, referenced, c.w.st, c.w.e) && Found(g, referenced, c.w.e, p, c.err)
  {
    var e, q := r.w.e, Place(p.id, false);
    if g[p.id].Kind() == PTR {
      assert Next(g, q) == Calls(g, p);
      DoneStep(g, referenced, e, q);
    } else {
      LeafIsDone(g, referenced, e, p.id);
    }
    FoundByValue(g, referenced, e, p.id, p.ptr, Close(g, referenced, p, r).err);
    MarkOrdered(g, referenced, r.w.st, e, p.id);
  }

  /** A struct or union is queued after its members. */
  lemma CloseComposite(g: Graph, referenced: seq<bool>, p: Place, r: Outcome)
    requires Inv(g, referenced, r.w.st, r.w.e) && p.id < |g| == |referenced|
    requires IsComposite(g[p.id].Kind()) && r.w.st[p.id] == ORDERING && !Weak(g, p)
    requires r.err >= 0 && Answered(g, referenced, r.w.e, Calls(g, p), |Calls(g, p)|, r.err)
    ensures var c := Close(g, referenced, p, r);
      Inv(g, referenced, c.w.st, c.w.e) && Found(g, referenced, c.w.e, p, c.err)
  {
    var e := r.w.e;
    assert Calls(g, p) == Next(g, Place(p.id, false));
    if g[p.id].name != 0 {
      AppendOrdered(g, referenced, r.w.st, e, p.id);
      FoundByValue(g, referenced, e + [p.id], p.id, p.ptr, 1);
    } else {
      DoneStep(g, referenced, e, Place(p.id, false));
      MarkOrdered(g, referenced, r.w.st, e, p.id);
      FoundByValue(g, referenced, e, p.id, p.ptr, 1);
    }
  }

  /** Named enums and forward declarations, and those nothing refers to, are definitions. */
  lemma CloseEnum(g: Graph, referenced: seq<bool>, p: Place, w: Work)
    requires Inv(g, referenced, w.st, w.e) && p.id < |g| == |referenced|
    requires g[p.id].Kind() in {ENUM, FWD} && w.st[p.id] == NOT_ORDERED
    ensures var c := Close(g, referenced, p, Outcome(0, w));
      Inv(g, referenced, c.w.st, c.w.e) && Found(g, referenced, c.w.e, p, 1)
  {
    assert Next(g, Place(p.id, false)) == [];
    if g[p.id].name != 0 || !referenced[p.id] {
      AppendOrdered(g, referenced, w.st, w.e, p.id);
      FoundByValue(g, referenced, w.e + [p.id], p.id, p.ptr, 1);
    } else {
      DoneStep(g, referenced, w.e, Place(p.id, false));
      MarkOrdered(g, referenced, w.st, w.e, p.id);
      FoundByValue(g, referenced, w.e, p.id, p.ptr, 1);
    }
  }

  /** A typedef is queued after what it names, unless the link is weak. */
  lemma CloseTypedef(g: Graph, referenced: seq<bool>, p: Place, r: Outcome)
    requires Inv(g, referenced, r.w.st, r.w.e) && p.id < |g| == |referenced|
    requires g[p.id].Kind() == TYPEDEF && 0 <= r.err <= 1
    requires Answered(g, referenced, r.w.e, Calls(g, p), |Calls(g, p)|, r.err)
    ensures var c := Close(g, referenced, p, r);
      Inv(g, referenced, c.w.st, c.w.e) && Found(g, referenced, c.w.e, p, c.err)
  {
    var e := r.w.e;
    if p.ptr && r.err == 0 {
      assert Next(g, p) == [];
      DoneStep(g, referenced, e, p);
    } else {
      assert Next(g, Place(p.id, false)) == [Place(Calls(g, p)[0].id, false)];
      AppendOrdered(g, referenced, r.w.st, e, p.id);
      FoundByValue(g, referenced, e + [p.id], p.id, p.ptr, 1);
    }
  }

  lemma CloseFuncProto(g: Graph, referenced: seq<bool>, p: Place, r: Outcome)
    requires GoodGraph(g) && p.id < |g| && g[p.id].Kind() == FUNC_PROTO
    requires Answered(g, referenced, r.w.e, Calls(g, p), |Calls(g, p)|, r.err)
    ensures Found(g, referenced, r.w.e, p, r.err)
  {
    var q := Place(p.id, false);
    forall i | 0 <= i < |Next(g, q)|
      ensures Done(g, referenced, r.w.e, Next(g, q)[i])
    {
      assert Done(g, referenced, r.w.e, Calls(g, p)[i]);
      if !p.ptr {
        DoneByValue(g, referenced, r.w.e, Calls(g, p)[i].id);
      }
    }
    DoneStep(g, referenced, r.w.e, q);
    FoundByValue(g, referenced, r.w.e, p.id, p.ptr, r.err);
  }
}
