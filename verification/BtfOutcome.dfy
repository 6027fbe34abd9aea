/** When the traversal succeeds: exactly when no type is part of itself, that is, when no place it can
    reach leads back to itself. */
module BtfOutcome {
  import opened BtfTypes
  import opened BtfRefs
  import opened BtfOrder
  import opened BtfTraversal
  import opened BtfLoops

  // ---------------------------------------------------------------- success means no loop

  /** What is ordered leads to no loop. */
  ghost predicate OrderedFree(g: Graph, st: seq<OrderState>)
    requires GoodGraph(g)
  {
    |st| == |g| && forall x {:trigger st[x]} :: 0 <= x < |g| && st[x] == ORDERED ==> LoopFree(g, false, Place(x, false))
  }

  ghost predicate Free(g: Graph, p: Place, err: int)
    requires GoodGraph(g) && p.id < |g|
  {
    LoopFree(g, false, p) && (err == 1 ==> LoopFree(g, false, Place(p.id, false)))
  }

  ghost predicate AllFree(g: Graph, cs: seq<Place>, n: nat, err: int)
    requires GoodGraph(g) && forall j :: 0 <= j < |cs| ==> cs[j].id < |g|
  {
    && n <= |cs| && (n == 0 ==> err <= 0)
    && (forall j {:trigger cs[j]} :: 0 <= j < n ==> LoopFree(g, false, cs[j]))
    && (n == |cs| == 1 ==> Free(g, cs[0], err))
  }

  ghost predicate FreeCall(g: Graph, w: Work, p: Place, r: Outcome) {
    GoodGraph(g) && p.id < |g| && OrderedFree(g, w.st) && r.err >= 0 ==> OrderedFree(g, r.w.st) && Free(g, p, r.err)
  }

  ghost predicate FreeRest(g: Graph, w: Work, p: Place, j: nat, strong: int, r: Outcome) {
    GoodGraph(g) && p.id < |g| && OrderedFree(g, w.st) && AllFree(g, Calls(g, p), j, strong) && r.err >= 0 ==>
      OrderedFree(g, r.w.st) && AllFree(g, Calls(g, p), |Calls(g, p)|, r.err)
  }

  lemma FreeByValue(g: Graph, id: nat, ptr: bool, err: int)
    requires GoodGraph(g) && id < |g| && LoopFree(g, false, Place(id, false))
    ensures Free(g, Place(id, ptr), err)
  {
    LoopFreeByValue(g, false, id, ptr);
  }

  lemma AtOnceFree(g: Graph, referenced: seq<bool>, rank: seq<nat>, w: Work, p: Place)
    requires Prepared(g, referenced, rank, w) && p.id < |g| && AtOnce(g, w, p)
    ensures FreeCall(g, w, p, Answer(g, w, p))
  {
    if OrderedFree(g, w.st) && Answer(g, w, p).err >= 0 {
      if w.st[p.id] == ORDERED {
        FreeByValue(g, p.id, p.ptr, 1);
      } else {
        LoopFreeStep(g, false, p);
      }
    }
  }

  /** Once the calls from `p` are known to lead to no loop, so is `p`. */
  lemma CloseFree(g: Graph, referenced: seq<bool>, p: Place, r: Outcome)
    requires GoodGraph(g) && p.id < |g| == |r.w.st| == |referenced| && !Weak(g, p) && g[p.id].Kind() != VOID
    requires 0 <= r.err <= 1 && AllFree(g, Calls(g, p), |Calls(g, p)|, r.err)
    ensures Free(g, p, Close(g, referenced, p, r).err)
    ensures Close(g, referenced, p, r).w.st == r.w.st || LoopFree(g, false, Place(p.id, false))
  {
    var v, t := Place(p.id, false), g[p.id];
    assert GoodType(t, |g|);
    if (t.Kind() == ARRAY || IsMod(t.Kind()) || t.Kind() == TYPEDEF) && r.err == 0 && p.ptr {
      LoopFreeStep(g, false, p);
    } else {
      forall j | 0 <= j < |Out(g, false, v)|
        ensures LoopFree(g, false, Out(g, false, v)[j])
      {
        CallFree(g, p, r.err, j);
      }
      LoopFreeStep(g, false, v);
      FreeByValue(g, p.id, p.ptr, Close(g, referenced, p, r).err);
    }
  }

  lemma CallFree(g: Graph, p: Place, err: int, j: nat)
    requires GoodGraph(g) && p.id < |g| && !Weak(g, p) && AllFree(g, Calls(g, p), |Calls(g, p)|, err)
    requires IsChain(g[p.id].Kind()) && p.ptr ==> err == 1
    requires j < |Out(g, false, Place(p.id, false))| && 0 <= err
    ensures LoopFree(g, false, Out(g, false, Place(p.id, false))[j])
  {
    var c := Out(g, false, Place(p.id, false))[j];
    assert GoodType(g[p.id], |g|);
    SameCall(g, p, j);
    assert LoopFree(g, false, Calls(g, p)[j]);
    if c != Calls(g, p)[j] && c.ptr {
      LoopFreeByValue(g, false, c.id, true);
    }
  }

  /** The step from a place met by value, compared with the call from it as it was met. */
  lemma SameCall(g: Graph, p: Place, j: nat)
    requires GoodGraph(g) && p.id < |g| && !Weak(g, p) && j < |Out(g, false, Place(p.id, false))|
    ensures j < |Calls(g, p)| && Calls(g, p)[j].id == Out(g, false, Place(p.id, false))[j].id
    ensures g[p.id].Kind() == FUNC_PROTO ==> Out(g, false, Place(p.id, false))[j].ptr
    ensures IsChain(g[p.id].Kind()) ==> |Calls(g, p)| == 1
    ensures g[p.id].Kind() != FUNC_PROTO && !(IsChain(g[p.id].Kind()) && p.ptr) ==>
      Calls(g, p)[j] == Out(g, false, Place(p.id, false))[j]
  {
    assert GoodType(g[p.id], |g|);
  }

  lemma ClosingFree(g: Graph, referenced: seq<bool>, rank: seq<nat>, w: Work, p: Place, r: Outcome)
    requires Closing(g, referenced, rank, w, p, r) && FreeRest(g, Open(g, w, p.id), p, 0, 0, r)
    ensures FreeCall(g, w, p, Close(g, referenced, p, r))
  {
    var c := Close(g, referenced, p, r);
    if OrderedFree(g, w.st) && c.err >= 0 {
      assert OrderedFree(g, Open(g, w, p.id).st);
      assert AllFree(g, Calls(g, p), 0, 0);
      CloseFree(g, referenced, p, r);
      assert c.w.st == r.w.st || c.w.st == r.w.st[p.id := ORDERED];
    }
  }

  lemma NextFree(g: Graph, referenced: seq<bool>, rank: seq<nat>, w: Work, p: Place, j: nat, strong: int,
                 r: Outcome, r': Outcome)
    requires Entered(g, referenced, rank, w, p, j, strong) && j < |Calls(g, p)| && Possible(w, r)
    requires FreeCall(g, w, Calls(g, p)[j], r)
    requires if r.err < 0 then r' == r
             else FreeRest(g, r.w, p, j + 1, if r.err > 0 then 1 else strong, r')
    ensures FreeRest(g, w, p, j, strong, r')
  {
    if r.err >= 0 && OrderedFree(g, w.st) && AllFree(g, Calls(g, p), j, strong) {
      AllFreeNext(g, Calls(g, p), j, strong, r.err);
    }
  }

  lemma AllFreeNext(g: Graph, cs: seq<Place>, n: nat, strong: int, err: int)
    requires GoodGraph(g) && (forall j :: 0 <= j < |cs| ==> cs[j].id < |g|)
    requires n < |cs| && AllFree(g, cs, n, strong) && err <= 1 && Free(g, cs[n], err)
    ensures AllFree(g, cs, n + 1, if err > 0 then 1 else strong)
  {
    FreeWeaker(g, cs[n], err, if err > 0 then 1 else strong);
    forall j | 0 <= j < n + 1
      ensures LoopFree(g, false, cs[j])
    {
      if j == n {
        assert LoopFree(g, false, cs[n]);
      }
    }
  }

  lemma FreeWeaker(g: Graph, p: Place, err: int, err': int)
    requires GoodGraph(g) && p.id < |g| && Free(g, p, err)
    ensures LoopFree(g, false, p) && (err == 1 || err' != 1 ==> Free(g, p, err'))
  {
  }

  /** A call that succeeds leads to no loop. */
  lemma SuccessIsFree(g: Graph, referenced: seq<bool>, rank: seq<nat>, w: Work, p: Place)
    requires Prepared(g, referenced, rank, w) && p.id < |g| && OrderedFree(g, w.st)
    ensures var r := Traverse(g, referenced, rank, w, p);
      r.err >= 0 ==> OrderedFree(g, r.w.st) && Free(g, p, r.err)
  {
    var call: CallProperty := (w: Work, p: Place, r: Outcome) => FreeCall(g, w, p, r);
    var rest: RestProperty := (w: Work, p: Place, j: nat, strong: int, r: Outcome) => FreeRest(g, w, p, j, strong, r);
    assert HoldsAtOnce(g, referenced, rank, call) by {
      forall w: Work, p: Place | Prepared(g, referenced, rank, w) && p.id < |g| && AtOnce(g, w, p)
        ensures call(w, p, Answer(g, w, p))
      {
        AtOnceFree(g, referenced, rank, w, p);
      }
    }
    assert HoldsClosing(g, referenced, rank, call, rest) by {
      forall w: Work, p: Place, r: Outcome |
        Closing(g, referenced, rank, w, p, r) && rest(Open(g, w, p.id), p, 0, 0, r)
        ensures call(w, p, Close(g, referenced, p, r))
      {
        ClosingFree(g, referenced, rank, w, p, r);
      }
    }
    assert HoldsNext(g, referenced, rank, call, rest) by {
      forall w: Work, p: Place, j: nat, strong: int, r: Outcome, r': Outcome |
        CallThenRest(g, referenced, rank, w, p, j, strong, r, r', call, rest)
        ensures rest(w, p, j, strong, r')
      {
        NextFree(g, referenced, rank, w, p, j, strong, r, r');
      }
    }
    assert HoldsLast(g, referenced, rank, rest);
    TraverseInduction(g, referenced, rank, w, p, call, rest);
  }

  // ---------------------------------------------------------------- no loop means success

  /** `x` was entered by value, and calls lead from there to `p`. */
  ghost predicate LeadsFrom(g: Graph, x: nat, p: Place)
    requires GoodGraph(g) && x < |g|
  {
    exists ptr: bool, path: seq<nat> :: path != [] && Leads(g, true, Place(x, ptr), p, path)
  }

  /** The types in progress are structs and unions whose calls led to `p`; `self` is in progress itself. */
  ghost predicate Above(g: Graph, st: seq<OrderState>, p: Place, self: bool)
    requires GoodGraph(g) && p.id < |g|
  {
    |st| == |g| && forall x {:trigger st[x]} :: 0 <= x < |g| && st[x] == ORDERING ==>
      IsComposite(g[x].Kind()) && ((self && x == p.id) || LeadsFrom(g, x, p))
  }

  ghost predicate SoundCall(g: Graph, w: Work, p: Place, r: Outcome) {
    GoodGraph(g) && p.id < |g| && LoopFree(g, true, p) && Above(g, w.st, p, false) ==> r.err >= 0
  }

  ghost predicate SoundRest(g: Graph, w: Work, p: Place, r: Outcome) {
    GoodGraph(g) && p.id < |g| && LoopFree(g, true, p) && Above(g, w.st, p, true) ==> r.err >= 0
  }

  lemma AtOnceSound(g: Graph, referenced: seq<bool>, rank: seq<nat>, w: Work, p: Place)
    requires Prepared(g, referenced, rank, w) && p.id < |g| && AtOnce(g, w, p)
    ensures SoundCall(g, w, p, Answer(g, w, p))
  {
    if Above(g, w.st, p, false) && w.st[p.id] == ORDERING && !Weak(g, p) {
      var ptr, path :| path != [] && Leads(g, true, Place(p.id, ptr), p, path);
      assert Out(g, true, Place(p.id, ptr)) == Out(g, true, p);
      assert Leads(g, true, p, p, path) && Leads(g, true, p, p, []);
    }
  }

  lemma ClosingSound(g: Graph, referenced: seq<bool>, rank: seq<nat>, w: Work, p: Place, r: Outcome)
    requires Closing(g, referenced, rank, w, p, r) && SoundRest(g, Open(g, w, p.id), p, r)
    ensures SoundCall(g, w, p, Close(g, referenced, p, r))
  {
    assert Above(g, w.st, p, false) ==> Above(g, Open(g, w, p.id).st, p, true);
  }

  lemma LeadsFromNext(g: Graph, x: nat, p: Place, j: nat)
    requires GoodGraph(g) && x < |g| && p.id < |g| && j < |Calls(g, p)|
    requires LeadsFrom(g, x, p) || x == p.id
    ensures LeadsFrom(g, x, Calls(g, p)[j])
  {
    LeadsOne(g, true, p, j);
    if LeadsFrom(g, x, p) {
      var ptr, path :| path != [] && Leads(g, true, Place(x, ptr), p, path);
      LeadsOn(g, true, Place(x, ptr), p, Calls(g, p)[j], path, [j]);
      assert path + [j] != [];
    } else {
      assert p == Place(x, p.ptr);
    }
  }

  lemma NextSound(g: Graph, referenced: seq<bool>, rank: seq<nat>, w: Work, p: Place, j: nat, strong: int,
                  r: Outcome, r': Outcome)
    requires Entered(g, referenced, rank, w, p, j, strong) && j < |Calls(g, p)| && Possible(w, r)
    requires SoundCall(g, w, Calls(g, p)[j], r)
    requires if r.err < 0 then r' == r else SoundRest(g, r.w, p, r')
    ensures SoundRest(g, w, p, r')
  {
    if LoopFree(g, true, p) && Above(g, w.st, p, true) {
      LoopFreeNext(g, true, p, j);
      forall x | 0 <= x < |g| && w.st[x] == ORDERING
        ensures LeadsFrom(g, x, Calls(g, p)[j])
      {
        LeadsFromNext(g, x, p, j);
      }
      assert Above(g, w.st, Calls(g, p)[j], false);
      assert Above(g, r.w.st, p, true);
    }
  }

  /** A call that leads to no loop succeeds. */
  lemma FreeSucceeds(g: Graph, referenced: seq<bool>, rank: seq<nat>, w: Work, p: Place)
    requires Prepared(g, referenced, rank, w) && p.id < |g| && LoopFree(g, true, p) && Above(g, w.st, p, false)
    ensures Traverse(g, referenced, rank, w, p).err >= 0
  {
    var call: CallProperty := (w: Work, p: Place, r: Outcome) => SoundCall(g, w, p, r);
    var rest: RestProperty := (w: Work, p: Place, j: nat, strong: int, r: Outcome) => SoundRest(g, w, p, r);
    assert HoldsAtOnce(g, referenced, rank, call) by {
      forall w: Work, p: Place | Prepared(g, referenced, rank, w) && p.id < |g| && AtOnce(g, w, p)
        ensures call(w, p, Answer(g, w, p))
      {
        AtOnceSound(g, referenced, rank, w, p);
      }
    }
    assert HoldsClosing(g, referenced, rank, call, rest) by {
      forall w: Work, p: Place, r: Outcome |
        Closing(g, referenced, rank, w, p, r) && rest(Open(g, w, p.id), p, 0, 0, r)
        ensures call(w, p, Close(g, referenced, p, r))
      {
        ClosingSound(g, referenced, rank, w, p, r);
      }
    }
    assert HoldsNext(g, referenced, rank, call, rest) by {
      forall w: Work, p: Place, j: nat, strong: int, r: Outcome, r': Outcome |
        CallThenRest(g, referenced, rank, w, p, j, strong, r, r', call, rest)
        ensures rest(w, p, j, strong, r')
      {
        NextSound(g, referenced, rank, w, p, j, strong, r, r');
      }
    }
    TraverseInduction(g, referenced, rank, w, p, call, rest);
    assert SoundCall(g, w, p, Traverse(g, referenced, rank, w, p));
  }

  /** Between calls nothing is in progress, and then the outcome is settled by the graph alone. */
  lemma SucceedsExactly(g: Graph, referenced: seq<bool>, rank: seq<nat>, w: Work, id: nat)
    requires Prepared(g, referenced, rank, w) && id < |g| && OrderedFree(g, w.st) && ORDERING !in w.st
    ensures var err := Traverse(g, referenced, rank, w, Place(id, false)).err;
      && (LoopFree(g, true, Place(id, false)) ==> err >= 0)
      && (err >= 0 ==> LoopFree(g, false, Place(id, false)))
      && (FunctionsBehindPointers(g, rank) && !IsFunction(g, rank, Place(id, false)) ==>
            (err >= 0 <==> LoopFree(g, true, Place(id, false))))
      && (err < 0 ==> err == ELOOP)
  {
    var p := Place(id, false);
    SuccessIsFree(g, referenced, rank, w, p);
    if LoopFree(g, true, p) {
      FreeSucceeds(g, referenced, rank, w, p);
    }
    if FunctionsBehindPointers(g, rank) && !IsFunction(g, rank, p) {
      SameLoopFree(g, rank, p);
    }
  }
}
