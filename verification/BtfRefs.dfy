/** The fourth pass, on reference types: what it keeps, and when it succeeds. */
module BtfRefs {
  import opened BtfTypes
  import opened BtfCanon
  import opened BtfTable
  import opened Lists

  /** How many types no pass has touched yet. */
  function Untouched(map_: seq<nat>): nat {
    if map_ == [] then 0 else (if map_[0] == UNPROCESSED then 1 else 0) + Untouched(map_[1..])
  }

  lemma {:induction false} UntouchedUpdate(map_: seq<nat>, x: nat, v: nat)
    requires x < |map_| && v != UNPROCESSED
    ensures Untouched(map_[x := v]) == Untouched(map_) - if map_[x] == UNPROCESSED then 1 else 0
  {
    if x == 0 {
      assert map_[x := v][1..] == map_[1..];
    } else {
      assert map_[x := v][1..] == map_[1..][x - 1 := v];
      UntouchedUpdate(map_[1..], x - 1, v);
    }
  }

  /** The types and map entries that were settled or in progress are as they were. */
  ghost predicate Kept(g: Graph, map_: seq<nat>, h: Graph, map': seq<nat>) {
    && |g| == |h| && |map_| == |map'| == |g|
    && forall x :: 0 <= x < |g| && map_[x] != UNPROCESSED ==> map'[x] == map_[x] && h[x] == g[x]
  }

  /** Kinds whose references the fourth pass redirects to canonical types. */
  predicate IsRedirected(k: Kind) {
    IsRef(k) || k == ARRAY || k == FUNC_PROTO
  }

  /** A canonical reference type refers to canonical types only. */
  ghost predicate Rooted(g: Graph, map_: seq<nat>) {
    |g| == |map_| && forall x, j ::
      0 <= x < |g| && map_[x] == x && IsRedirected(g[x].Kind()) && 0 <= j < |Children(g[x])| ==>
      Children(g[x])[j] < |map_| && map_[Children(g[x])[j]] == Children(g[x])[j]
  }

  /** After the second pass. */
  ghost predicate PrimsMapped(g: Graph, map_: seq<nat>) {
    && |g| == |map_|
    && (forall x :: 0 < x < |g| ==> (g[x].Kind() in {INT, ENUM, FWD, VAR, DATASEC} <==> IsMapped(map_[x])))
    && (forall x :: 0 < x < |g| ==> map_[x] != IN_PROGRESS)
  }

  /** Before the fourth pass no reference type is mapped. */
  lemma RootedAtFirst(g: Graph, map_: seq<nat>, map': seq<nat>)
    requires GoodGraph(g) && |g| == |map_| && OnlyComposite(g, map_, map')
    requires PrimsMapped(g, map_) && |g| <= MAX_NR_TYPES
    ensures Rooted(g, map')
  {
    forall x | 0 <= x < |g| && IsRedirected(g[x].Kind())
      ensures map'[x] != x
    {
      assert map'[x] == map_[x];
    }
  }

  /** Everything the fourth pass keeps. */
  ghost predicate Settled(g: Graph, map_: seq<nat>, table: seq<Cand>) {
    GoodGraph(g) && GoodMap(g, map_) && GoodTable(g, map_, table) && Rooted(g, map_)
  }

  /** What one call of the recursive `btf_dedup_ref_type` may have done. */
  ghost predicate Advanced(g: Graph, map_: seq<nat>, h: Graph, map': seq<nat>, table': seq<Cand>) {
    && Settled(h, map', table') && Equivalent(g, h) && Kept(g, map_, h, map') && Shrunk(g, map_, h, map')
    && Untouched(map') <= Untouched(map_)
  }

  // ---------------------------------------------------------------- when the fourth pass succeeds

  /** From reference `from` on, `x` refers to reference types of lower rank only. */
  ghost predicate LowRefs(g: Graph, rank: seq<nat>, x: nat, from: nat) {
    && x < |g| && |rank| == |g|
    && forall j :: from <= j < |Children(g[x])| && Children(g[x])[j] < |g| && IsRedirected(g[Children(g[x])[j]].Kind())
         ==> rank[Children(g[x])[j]] < rank[x]
  }

  /** In C every cycle of types passes through a struct or union, so reference types can be ranked. */
  ghost predicate CyclesAreComposite(g: Graph, rank: seq<nat>) {
    |rank| == |g| && forall x {:trigger LowRefs(g, rank, x, 0)} ::
      0 <= x < |g| && IsRedirected(g[x].Kind()) ==> LowRefs(g, rank, x, 0)
  }

  ghost predicate CGraph(g: Graph, rank: seq<nat>) {
    NoVarRefs(g) && CyclesAreComposite(g, rank)
  }

  /** Only reference types are left, and the untouched ones are ranked. */
  ghost predicate Ranked(g: Graph, map_: seq<nat>, rank: seq<nat>) {
    && |rank| == |g| == |map_|
    && (forall x :: 0 <= x < |g| && !IsMapped(map_[x]) ==> IsRedirected(g[x].Kind()))
    && (forall x {:trigger LowRefs(g, rank, x, 0)} :: 0 <= x < |g| && map_[x] == UNPROCESSED ==> LowRefs(g, rank, x, 0))
  }

  /** `id` is settled, or untouched and of lower rank than all types in progress. */
  ghost predicate Ready(g: Graph, map_: seq<nat>, rank: seq<nat>, id: nat) {
    && Ranked(g, map_, rank) && id < |g|
    && (IsMapped(map_[id]) ||
        (map_[id] != IN_PROGRESS && forall x :: 0 <= x < |g| && map_[x] == IN_PROGRESS ==> rank[x] > rank[id]))
  }

  /** No type is in progress. */
  ghost predicate AllReady(g: Graph, map_: seq<nat>, rank: seq<nat>) {
    Ranked(g, map_, rank) && IN_PROGRESS !in map_
  }

  /** The type in progress `id` is the lowest, and its references from `j` on are lower still. */
  ghost predicate KidsReady(g: Graph, map_: seq<nat>, rank: seq<nat>, id: nat, j: nat) {
    && Ranked(g, map_, rank) && id < |g| && map_[id] == IN_PROGRESS && LowRefs(g, rank, id, j)
    && forall x :: 0 <= x < |g| && map_[x] == IN_PROGRESS ==> rank[x] >= rank[id]
  }

  /** The same types are in progress. */
  ghost predicate SameProgress(map_: seq<nat>, map': seq<nat>) {
    |map_| == |map'| && forall x :: 0 <= x < |map_| ==> (map_[x] == IN_PROGRESS <==> map'[x] == IN_PROGRESS)
  }

  lemma ReadyStarts(g: Graph, map_: seq<nat>, rank: seq<nat>, id: nat)
    requires Ready(g, map_, rank, id) && map_[id] == UNPROCESSED
    ensures KidsReady(g, map_[id := IN_PROGRESS], rank, id, 0)
  {
    assert LowRefs(g, rank, id, 0);
    forall x | 0 <= x < |g| && map_[id := IN_PROGRESS][x] == UNPROCESSED
      ensures LowRefs(g, rank, x, 0)
    {
    }
  }

  lemma KidIsReady(g: Graph, map_: seq<nat>, rank: seq<nat>, id: nat, j: nat)
    requires id < |g| && j < |Children(g[id])| && Children(g[id])[j] < |g|
    ensures KidsReady(g, map_, rank, id, j) ==> Ready(g, map_, rank, Children(g[id])[j])
  {
  }

  /** Untouched types afterwards are untouched before, and the same. */
  ghost predicate Shrunk(g: Graph, map_: seq<nat>, h: Graph, map': seq<nat>) {
    && |g| == |h| == |map_| == |map'|
    && (forall x :: 0 <= x < |g| && map'[x] == UNPROCESSED ==> map_[x] == UNPROCESSED && h[x] == g[x])
    && (forall x :: 0 <= x < |g| && IsMapped(map_[x]) ==> IsMapped(map'[x]))
    && (forall x :: 0 <= x < |g| ==> h[x].info == g[x].info)
  }

  lemma RankedAtFirst(g: Graph, map_: seq<nat>, map': seq<nat>, rank: seq<nat>)
    requires GoodGraph(g) && GoodMap(g, map') && |map_| == |g| && OnlyComposite(g, map_, map') && CGraph(g, rank)
    requires PrimsMapped(g, map_) && CompositesMapped(g, map', |g|)
    ensures AllReady(g, map', rank)
  {
  }

  lemma RankedStays(g: Graph, map_: seq<nat>, rank: seq<nat>, h: Graph, map': seq<nat>)
    requires Ranked(g, map_, rank) && Shrunk(g, map_, h, map')
    ensures Ranked(h, map', rank)
  {
    forall x | 0 <= x < |h| && map'[x] == UNPROCESSED
      ensures LowRefs(h, rank, x, 0)
    {
      assert LowRefs(g, rank, x, 0);
    }
  }

  lemma KidsStayReady(g: Graph, map_: seq<nat>, rank: seq<nat>, h: Graph, map': seq<nat>, k: Graph, id: nat, j: nat)
    requires KidsReady(g, map_, rank, id, j) && Shrunk(g, map_, h, map') && SameProgress(map_, map')
    requires id < |h| && h[id] == g[id] && j < |Children(h[id])|
    requires |k| == |h| && (forall x :: 0 <= x < |h| && x != id ==> k[x] == h[x])
    requires k[id].info == h[id].info && |Children(k[id])| == |Children(h[id])|
    requires forall i :: j < i < |Children(h[id])| ==> Children(k[id])[i] == Children(h[id])[i]
    ensures KidsReady(k, map', rank, id, j + 1)
  {
    RankedStays(g, map_, rank, h, map');
    forall x | 0 <= x < |k| && map'[x] == UNPROCESSED
      ensures LowRefs(k, rank, x, 0)
    {
      assert LowRefs(h, rank, x, 0);
    }
  }

  /** As `Advanced`, but type `id`, in progress, may have changed too. */
  ghost predicate AdvancedExcept(g: Graph, map_: seq<nat>, h: Graph, map': seq<nat>, table': seq<Cand>, id: nat) {
    && Settled(h, map', table') && Equivalent(g, h)
    && |g| == |h| && |map_| == |map'| == |g| && id < |g| && map'[id] == IN_PROGRESS
    && (forall x :: 0 <= x < |g| && map_[x] != UNPROCESSED && x != id ==> map'[x] == map_[x] && h[x] == g[x])
    && Shrunk(g, map_, h, map') && Untouched(map') <= Untouched(map_)
  }

  lemma AdvancedThenExcept(g: Graph, m: seq<nat>, h: Graph, m': seq<nat>, t': seq<Cand>, k: Graph, m'': seq<nat>,
                           t'': seq<Cand>, id: nat)
    requires AdvancedExcept(g, m, h, m', t', id) && AdvancedExcept(h, m', k, m'', t'', id)
    ensures AdvancedExcept(g, m, k, m'', t'', id)
  {
    EquivalentTrans(g, h, k);
  }

  lemma StartOne(g: Graph, map_: seq<nat>, table: seq<Cand>, id: nat)
    requires Settled(g, map_, table) && 0 < id < |g| && map_[id] == UNPROCESSED
    ensures AdvancedExcept(g, map_, g, map_[id := IN_PROGRESS], table, id)
    ensures Untouched(map_[id := IN_PROGRESS]) < Untouched(map_)
  {
    MarkInProgress(g, map_, id);
    UntouchedUpdate(map_, id, IN_PROGRESS);
  }

  /** Redirecting a reference of the type in progress. */
  lemma RedirectOne(g: Graph, map_: seq<nat>, table: seq<Cand>, id: nat, j: nat, to: nat)
    requires Settled(g, map_, table) && 0 < id < |g| && map_[id] == IN_PROGRESS && j < |Children(g[id])|
    requires to < |g| && Same(g, Children(g[id])[j], g, to)
    ensures var h := g[id := SetChild(g[id], j, to)];
      && Settled(h, map_, table) && Equivalent(g, h)
      && Children(h[id]) == Children(g[id])[j := to] && h[id].info == g[id].info
  {
    var h := g[id := SetChild(g[id], j, to)];
    SetChildIs(g[id], j, to);
    RedirectKeepsMeaning(g, id, j, to);
    GoodMapCarries(g, h, map_);
  }

  lemma AdvancedIsExcept(g: Graph, m: seq<nat>, h: Graph, m': seq<nat>, t': seq<Cand>, id: nat)
    requires Advanced(g, m, h, m', t') && id < |g| && m[id] == IN_PROGRESS
    ensures AdvancedExcept(g, m, h, m', t', id)
  {
  }

  lemma ChangedIsExcept(g: Graph, m: seq<nat>, h: Graph, m': seq<nat>, t': seq<Cand>, id: nat, k: Graph)
    requires AdvancedExcept(g, m, h, m', t', id)
    requires |k| == |h| && (forall x :: 0 <= x < |h| && x != id ==> k[x] == h[x]) && k[id].info == h[id].info
    requires |Children(k[id])| == |Children(h[id])|
    requires Settled(k, m', t') && Equivalent(h, k)
    ensures AdvancedExcept(g, m, k, m', t', id)
  {
    EquivalentTrans(g, h, k);
  }

  /** Redirecting a reference of the type in progress, after the referenced type was settled. */
  lemma RedirectAdvanced(g: Graph, m: seq<nat>, h: Graph, m': seq<nat>, t': seq<Cand>, id: nat, j: nat, to: nat)
    requires Advanced(g, m, h, m', t') && 0 < id < |g| && m[id] == IN_PROGRESS && j < |Children(h[id])|
    requires to < |h| && Same(h, Children(h[id])[j], h, to)
    ensures var k := h[id := SetChild(h[id], j, to)];
      && AdvancedExcept(g, m, k, m', t', id)
      && Children(k[id]) == Children(h[id])[j := to] && k[id].info == h[id].info
  {
    AdvancedIsExcept(g, m, h, m', t', id);
    RedirectOne(h, m', t', id, j, to);
    ChangedIsExcept(g, m, h, m', t', id, h[id := SetChild(h[id], j, to)]);
  }

  /** Settling the type in progress, once its references are canonical. */
  lemma FinishOne(g: Graph, map_: seq<nat>, table: seq<Cand>, id: nat, to: nat, table': seq<Cand>)
    requires Settled(g, map_, table) && 0 < id < |g| && map_[id] == IN_PROGRESS
    requires GoodSlots(g[id]) && IsRedirected(g[id].Kind()) && Chosen(g, map_, table, id, to)
    requires table' == if to == id then [Cand(Hash(g[id]), id)] + table else table
    requires forall j :: 0 <= j < |Children(g[id])| ==>
      Children(g[id])[j] < |map_| && map_[Children(g[id])[j]] == Children(g[id])[j]
    ensures Settled(g, map_[id := to], table') && Untouched(map_[id := to]) <= Untouched(map_)
    ensures to < |g| && map_[id := to][to] == to && Same(g, id, g, to)
  {
    SettleOne(g, map_, table, id, to, table');
    UntouchedUpdate(map_, id, to);
    SameRecord(g, id, to);
    assert GoodType(g[id], |g|);
  }
}
