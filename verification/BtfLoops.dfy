/** Where the calls of the traversal can lead, and the loops that no order of definitions can satisfy. */
module BtfLoops {
  import opened BtfTypes
  import opened BtfRefs
  import opened BtfOrder
  import opened BtfTraversal

  /** One step from a place. The traversal meets what a function prototype refers to as it meets the
      prototype (`direct`); the order of definitions needs it only behind a pointer. */
  function Out(g: Graph, direct: bool, p: Place): (r: seq<Place>)
    requires GoodGraph(g) && p.id < |g|
    ensures forall j :: 0 <= j < |r| ==> r[j].id < |g|
  {
    var t := g[p.id];
    assert GoodType(t, |g|);
    var cs := Children(t);
    if IsComposite(t.Kind()) then
      if p.ptr && t.name != 0 then [] else Places(cs, false)
    else if t.Kind() == PTR then Places(cs, true)
    else if t.Kind() == ARRAY then [Place(cs[0], p.ptr)]
    else if t.Kind() == FUNC_PROTO then Places(cs, p.ptr || !direct)
    else if IsMod(t.Kind()) || t.Kind() == TYPEDEF then Places(cs, p.ptr)
    else []
  }

  /** `path` leads from `p` to `q`: each link is a position in `Out`. */
  ghost predicate Leads(g: Graph, direct: bool, p: Place, q: Place, path: seq<nat>)
    requires GoodGraph(g) && p.id < |g|
    decreases |path|
  {
    if path == [] then p == q
    else path[0] < |Out(g, direct, p)| && Leads(g, direct, Out(g, direct, p)[path[0]], q, path[1..])
  }

  /** No place that `p` leads to leads back to itself. */
  ghost predicate LoopFree(g: Graph, direct: bool, p: Place)
    requires GoodGraph(g) && p.id < |g|
  {
    forall q: Place, there: seq<nat>, back: seq<nat>
      {:trigger Leads(g, direct, p, q, there), Leads(g, direct, q, q, back)} ::
      q.id < |g| && Leads(g, direct, p, q, there) && back != [] ==> !Leads(g, direct, q, q, back)
  }

  lemma LeadsAfter(g: Graph, direct: bool, p: Place, r: Place, j: nat, rest: seq<nat>, path: seq<nat>)
    requires GoodGraph(g) && p.id < |g| && j < |Out(g, direct, p)| && Leads(g, direct, Out(g, direct, p)[j], r, rest)
    requires path != [] && path[0] == j && path[1..] == rest
    ensures Leads(g, direct, p, r, path)
  {
  }

  lemma AppendTail(a: seq<nat>, b: seq<nat>)
    ensures a == [] ==> a + b == b
    ensures a != [] ==> (a + b)[0] == a[0] && (a + b)[1..] == a[1..] + b
  {
  }

  lemma {:induction false} LeadsOn(g: Graph, direct: bool, p: Place, q: Place, r: Place, a: seq<nat>, b: seq<nat>)
    requires GoodGraph(g) && p.id < |g| && q.id < |g| && Leads(g, direct, p, q, a) && Leads(g, direct, q, r, b)
    ensures Leads(g, direct, p, r, a + b)
    decreases |a|
  {
    AppendTail(a, b);
    if a != [] {
      LeadsOn(g, direct, Out(g, direct, p)[a[0]], q, r, a[1..], b);
      LeadsAfter(g, direct, p, r, a[0], a[1..] + b, a + b);
    }
  }

  lemma LeadsOne(g: Graph, direct: bool, p: Place, j: nat)
    requires GoodGraph(g) && p.id < |g| && j < |Out(g, direct, p)|
    ensures Leads(g, direct, p, Out(g, direct, p)[j], [j])
  {
    assert [j][1..] == [];
  }

  lemma LoopFreeNext(g: Graph, direct: bool, p: Place, j: nat)
    requires GoodGraph(g) && p.id < |g| && LoopFree(g, direct, p) && j < |Out(g, direct, p)|
    ensures LoopFree(g, direct, Out(g, direct, p)[j])
  {
    var c := Out(g, direct, p)[j];
    forall q: Place, there: seq<nat>, back: seq<nat> |
      q.id < |g| && Leads(g, direct, c, q, there) && back != []
      ensures !Leads(g, direct, q, q, back)
    {
      LeadsOne(g, direct, p, j);
      LeadsOn(g, direct, p, c, q, [j], there);
    }
  }

  lemma LoopRotates(g: Graph, direct: bool, p: Place, back: seq<nat>)
    requires GoodGraph(g) && p.id < |g| && back != [] && Leads(g, direct, p, p, back)
    ensures var c := Out(g, direct, p)[back[0]];
      Leads(g, direct, c, c, back[1..] + [back[0]])
  {
    var c := Out(g, direct, p)[back[0]];
    LeadsOne(g, direct, p, back[0]);
    LeadsOn(g, direct, c, p, c, back[1..], [back[0]]);
  }

  /** A loop through `p` is a loop through the place one step on. */
  lemma LoopFreeStep(g: Graph, direct: bool, p: Place)
    requires GoodGraph(g) && p.id < |g|
    requires forall j {:trigger Out(g, direct, p)[j]} :: 0 <= j < |Out(g, direct, p)| ==>
      LoopFree(g, direct, Out(g, direct, p)[j])
    ensures LoopFree(g, direct, p)
  {
    forall q: Place, there: seq<nat>, back: seq<nat> |
      q.id < |g| && Leads(g, direct, p, q, there) && back != []
      ensures !Leads(g, direct, q, q, back)
    {
      if there != [] {
        assert LoopFree(g, direct, Out(g, direct, p)[there[0]]);
        assert Leads(g, direct, Out(g, direct, p)[there[0]], q, there[1..]);
      } else if Leads(g, direct, p, p, back) {
        assert Leads(g, direct, Out(g, direct, p)[back[0]], Out(g, direct, p)[back[0]], []);
        LoopRotates(g, direct, p, back);
      }
    }
  }

  lemma OutByValue(g: Graph, direct: bool, p: Place, q: Place, j: nat)
    requires GoodGraph(g) && p.id < |g| && Weaker(p, q) && j < |Out(g, direct, p)|
    ensures j < |Out(g, direct, q)| && Weaker(Out(g, direct, p)[j], Out(g, direct, q)[j])
  {
  }

  /** What a place behind a pointer leads to, the place met by value leads to over the same links. */
  lemma {:induction false} LeadsByValue(g: Graph, direct: bool, p: Place, p': Place, q: Place, path: seq<nat>)
    returns (q': Place)
    requires GoodGraph(g) && p.id < |g| && Weaker(p, p') && Leads(g, direct, p, q, path)
    ensures Weaker(q, q') && Leads(g, direct, p', q', path)
    decreases |path|
  {
    if path == [] {
      q' := p';
    } else {
      OutByValue(g, direct, p, p', path[0]);
      q' := LeadsByValue(g, direct, Out(g, direct, p)[path[0]], Out(g, direct, p')[path[0]], q, path[1..]);
    }
  }

  lemma LoopFreeByValue(g: Graph, direct: bool, id: nat, ptr: bool)
    requires GoodGraph(g) && id < |g| && LoopFree(g, direct, Place(id, false))
    ensures LoopFree(g, direct, Place(id, ptr))
  {
    var p, v := Place(id, ptr), Place(id, false);
    forall q: Place, there: seq<nat>, back: seq<nat> |
      q.id < |g| && Leads(g, direct, p, q, there) && back != []
      ensures !Leads(g, direct, q, q, back)
    {
      if Leads(g, direct, q, q, back) {
        var q1 := LeadsByValue(g, direct, p, v, q, there);
        var q2 := LeadsByValue(g, direct, q, q1, q, back);
        assert !Leads(g, direct, q1, q1, back);
        assert q2 == q;
        LeadsOn(g, direct, v, q1, q, there, back);
      }
    }
  }

  // ---------------------------------------------------------------- functions by value

  /** What arrays, modifiers and typedefs end in. */
  ghost function Base(g: Graph, rank: seq<nat>, id: nat): (b: nat)
    requires GoodGraph(g) && CyclesAreComposite(g, rank) && id < |g|
    ensures b < |g| && !IsChain(g[b].Kind())
    decreases Level(g, rank, id)
  {
    if IsChain(g[id].Kind()) then
      assert GoodType(g[id], |g|);
      assert Level(g, rank, Children(g[id])[0]) < Level(g, rank, id) by {
        LevelFalls(g, rank, id, 0);
      }
      Base(g, rank, Children(g[id])[0])
    else id
  }

  predicate IsChain(k: Kind) {
    k == ARRAY || IsMod(k) || k == TYPEDEF
  }

  lemma BaseNext(g: Graph, rank: seq<nat>, p: Place)
    requires GoodGraph(g) && CyclesAreComposite(g, rank) && p.id < |g| && IsChain(g[p.id].Kind())
    ensures |Calls(g, p)| == 1 && Calls(g, p)[0].ptr == p.ptr && Calls(g, p)[0].id < |g|
    ensures Base(g, rank, Calls(g, p)[0].id) == Base(g, rank, p.id)
    ensures Level(g, rank, Calls(g, p)[0].id) < Level(g, rank, p.id)
  {
    assert GoodType(g[p.id], |g|);
    LevelFalls(g, rank, p.id, 0);
  }

  /** A place where a function itself is met, not a pointer to one. */
  ghost predicate IsFunction(g: Graph, rank: seq<nat>, p: Place)
    requires GoodGraph(g) && CyclesAreComposite(g, rank) && p.id < |g|
  {
    !p.ptr && g[Base(g, rank, p.id)].Kind() == FUNC_PROTO
  }

  /** As in C, no struct, union or prototype holds a function by value. */
  ghost predicate FunctionsBehindPointers(g: Graph, rank: seq<nat>)
    requires GoodGraph(g) && CyclesAreComposite(g, rank)
  {
    forall p: Place, j: nat {:trigger Calls(g, p)[j]} ::
      p.id < |g| && (IsComposite(g[p.id].Kind()) || g[p.id].Kind() == FUNC_PROTO) && j < |Calls(g, p)| ==>
        !IsFunction(g, rank, Calls(g, p)[j])
  }

  lemma SameOut(g: Graph, rank: seq<nat>, p: Place)
    requires GoodGraph(g) && CyclesAreComposite(g, rank) && FunctionsBehindPointers(g, rank)
    requires p.id < |g| && !IsFunction(g, rank, p)
    ensures Out(g, true, p) == Out(g, false, p)
    ensures forall j {:trigger Out(g, true, p)[j]} :: 0 <= j < |Out(g, true, p)| ==>
      !IsFunction(g, rank, Out(g, true, p)[j])
  {
    if IsChain(g[p.id].Kind()) {
      BaseNext(g, rank, p);
    }
    assert g[p.id].Kind() == FUNC_PROTO ==> p.ptr;
  }

  /** From a place that is not a function the two ways of counting agree. */
  lemma {:induction false} SameLeads(g: Graph, rank: seq<nat>, p: Place, q: Place, path: seq<nat>)
    requires GoodGraph(g) && CyclesAreComposite(g, rank) && FunctionsBehindPointers(g, rank)
    requires p.id < |g| && !IsFunction(g, rank, p) && q.id < |g|
    ensures Leads(g, true, p, q, path) <==> Leads(g, false, p, q, path)
    ensures Leads(g, true, p, q, path) ==> !IsFunction(g, rank, q)
    decreases |path|
  {
    SameOut(g, rank, p);
    if path != [] && path[0] < |Out(g, true, p)| {
      SameLeads(g, rank, Out(g, true, p)[path[0]], q, path[1..]);
    }
  }

  lemma SameLoop(g: Graph, rank: seq<nat>, p: Place, q: Place, there: seq<nat>, back: seq<nat>)
    requires GoodGraph(g) && CyclesAreComposite(g, rank) && FunctionsBehindPointers(g, rank)
    requires p.id < |g| && !IsFunction(g, rank, p) && q.id < |g|
    ensures Leads(g, true, p, q, there) <==> Leads(g, false, p, q, there)
    ensures Leads(g, true, p, q, there) ==> (Leads(g, true, q, q, back) <==> Leads(g, false, q, q, back))
  {
    SameLeads(g, rank, p, q, there);
    if Leads(g, true, p, q, there) {
      SameLeads(g, rank, q, q, back);
    }
  }

  lemma SameLoopFree(g: Graph, rank: seq<nat>, p: Place)
    requires GoodGraph(g) && CyclesAreComposite(g, rank) && FunctionsBehindPointers(g, rank)
    requires p.id < |g| && !IsFunction(g, rank, p)
    ensures LoopFree(g, true, p) <==> LoopFree(g, false, p)
  {
    if LoopFree(g, true, p) {
      forall q: Place, there: seq<nat>, back: seq<nat> |
        q.id < |g| && Leads(g, false, p, q, there) && back != []
        ensures !Leads(g, false, q, q, back)
      {
        SameLoop(g, rank, p, q, there, back);
      }
    }
    if LoopFree(g, false, p) {
      forall q: Place, there: seq<nat>, back: seq<nat> |
        q.id < |g| && Leads(g, true, p, q, there) && back != []
        ensures !Leads(g, true, q, q, back)
      {
        SameLoop(g, rank, p, q, there, back);
      }
    }
  }
}
