/** Why a successful fourth pass leaves no cycle of reference types: each finished after all it refers to. */
module BtfFounded {
  import opened BtfTypes
  import opened BtfCanon
  import opened BtfTable
  import opened BtfCopies
  import opened BtfRefs

  /** No path of more than `d` reference types starts at `x`. */
  ghost predicate Founded(g: Graph, x: nat, d: nat)
    decreases d
  {
    x < |g| && IsRedirected(g[x].Kind()) ==>
      d > 0 && forall j :: 0 <= j < |Children(g[x])| ==> Founded(g, Children(g[x])[j], d - 1)
  }

  /** Every path of reference types from `x` ends. */
  ghost predicate Ends(g: Graph, x: nat) {
    exists d: nat :: Founded(g, x, d)
  }

  lemma {:induction false} FoundedMore(g: Graph, x: nat, d: nat, e: nat)
    requires Founded(g, x, d) && d <= e
    ensures Founded(g, x, e)
    decreases d
  {
    if x < |g| && IsRedirected(g[x].Kind()) {
      forall j | 0 <= j < |Children(g[x])|
        ensures Founded(g, Children(g[x])[j], e - 1)
      {
        FoundedMore(g, Children(g[x])[j], d - 1, e - 1);
      }
    }
  }

  /** One bound for finitely many types. */
  lemma {:induction false} CommonBound(g: Graph, ids: seq<nat>) returns (d: nat)
    requires forall i :: 0 <= i < |ids| ==> Ends(g, ids[i])
    ensures forall i :: 0 <= i < |ids| ==> Founded(g, ids[i], d)
  {
    d := 0;
    if ids != [] {
      var e: nat :| Founded(g, ids[0], e);
      var f := CommonBound(g, ids[1..]);
      d := if e < f then f else e;
      forall i | 0 <= i < |ids|
        ensures Founded(g, ids[i], d)
      {
        if i == 0 {
          FoundedMore(g, ids[0], e, d);
        } else {
          FoundedMore(g, ids[1..][i - 1], f, d);
        }
      }
    }
  }

  lemma EndsFromChildren(g: Graph, x: nat)
    requires x < |g| && forall j :: 0 <= j < |Children(g[x])| ==> Ends(g, Children(g[x])[j])
    ensures Ends(g, x)
  {
    var d := CommonBound(g, Children(g[x]));
    assert Founded(g, x, d + 1);
  }

  // ---------------------------------------------------------------- ranks

  /** The length of the longest path of reference types from `x`. */
  ghost function Height(g: Graph, x: nat, d: nat): (h: nat)
    requires Founded(g, x, d)
    ensures Founded(g, x, h)
    decreases d
  {
    if d > 0 && Founded(g, x, d - 1) then Height(g, x, d - 1) else d
  }

  lemma {:induction false} HeightIsLeast(g: Graph, x: nat, d: nat, e: nat)
    requires Founded(g, x, d) && Founded(g, x, e)
    ensures Height(g, x, d) <= e
    decreases d
  {
    if d > e {
      FoundedMore(g, x, e, d - 1);
      HeightIsLeast(g, x, d - 1, e);
    } else if d > 0 && Founded(g, x, d - 1) {
      HeightIsLeast(g, x, d - 1, if e < d then e else d - 1);
    }
  }

  ghost function Heights(g: Graph, d: nat): (rank: seq<nat>)
    requires forall x :: 0 <= x < |g| ==> Founded(g, x, d)
    ensures |rank| == |g| && forall x :: 0 <= x < |g| ==> rank[x] == Height(g, x, d)
  {
    seq(|g|, x requires 0 <= x < |g| => Height(g, x, d))
  }

  ghost predicate HasRanks(g: Graph) {
    exists rank :: CyclesAreComposite(g, rank)
  }

  /** When all paths end, types can be ranked. */
  lemma EndsThenRanks(g: Graph)
    requires forall x :: 0 <= x < |g| ==> Ends(g, x)
    ensures HasRanks(g)
  {
    var ids := seq(|g|, i requires 0 <= i < |g| => i);
    var d := CommonBound(g, ids);
    forall x | 0 <= x < |g|
      ensures Founded(g, x, d)
    {
      assert Founded(g, ids[x], d);
    }
    HeightsAreRanks(g, d);
  }

  lemma HeightsAreRanks(g: Graph, d: nat)
    requires forall x :: 0 <= x < |g| ==> Founded(g, x, d)
    ensures CyclesAreComposite(g, Heights(g, d))
  {
    var rank := Heights(g, d);
    forall x | 0 <= x < |g| && IsRedirected(g[x].Kind())
      ensures LowRefs(g, rank, x, 0)
    {
      forall j | 0 <= j < |Children(g[x])| && Children(g[x])[j] < |g|
        ensures rank[Children(g[x])[j]] < rank[x]
      {
        HeightFalls(g, x, j, d);
      }
    }
  }

  lemma HeightFalls(g: Graph, x: nat, j: nat, d: nat)
    requires x < |g| && IsRedirected(g[x].Kind()) && j < |Children(g[x])|
    requires Founded(g, x, d) && Founded(g, Children(g[x])[j], d)
    ensures Height(g, Children(g[x])[j], d) < Height(g, x, d)
  {
    HeightIsLeast(g, Children(g[x])[j], d, Height(g, x, d) - 1);
  }

  /** And ranked types have paths that end. */
  lemma {:induction false} RankedEnds(g: Graph, rank: seq<nat>, x: nat)
    requires CyclesAreComposite(g, rank)
    ensures Ends(g, x)
    decreases if x < |rank| then rank[x] else 0
  {
    if x < |g| && IsRedirected(g[x].Kind()) {
      assert LowRefs(g, rank, x, 0);
      forall j | 0 <= j < |Children(g[x])|
        ensures Ends(g, Children(g[x])[j])
      {
        var c := Children(g[x])[j];
        if c < |g| && IsRedirected(g[c].Kind()) {
          RankedEnds(g, rank, c);
        } else {
          assert Founded(g, c, 0);
        }
      }
      EndsFromChildren(g, x);
    } else {
      assert Founded(g, x, 0);
    }
  }

  /** Types can be ranked exactly when every path of reference types ends: */
  lemma RanksMeanEnds(g: Graph)
    ensures HasRanks(g) <==> forall x :: 0 <= x < |g| ==> Ends(g, x)
  {
    if HasRanks(g) {
      var rank :| CyclesAreComposite(g, rank);
      forall x | 0 <= x < |g|
        ensures Ends(g, x)
      {
        RankedEnds(g, rank, x);
      }
    } else if forall x :: 0 <= x < |g| ==> Ends(g, x) {
      EndsThenRanks(g);
    }
  }

  /** A path along references of reference types. */
  ghost predicate RefPath(g: Graph, path: seq<nat>) {
    && (forall i :: 0 <= i < |path| ==> path[i] < |g| && IsRedirected(g[path[i]].Kind()))
    && (forall i :: 0 <= i < |path| - 1 ==> path[i + 1] in Children(g[path[i]]))
  }

  lemma {:induction false} RankFalls(g: Graph, rank: seq<nat>, path: seq<nat>)
    requires CyclesAreComposite(g, rank) && RefPath(g, path) && |path| > 1
    ensures rank[path[|path| - 1]] < rank[path[0]]
    decreases |path|
  {
    var n := |path| - 2;
    assert LowRefs(g, rank, path[n], 0);
    assert path[n + 1] in Children(g[path[n]]);
    if n > 0 {
      RankFalls(g, rank, path[..n + 1]);
    }
  }

  /** so not when one leads back to where it started. */
  lemma CycleHasNoRanks(g: Graph, path: seq<nat>)
    requires RefPath(g, path) && |path| > 1 && path[0] == path[|path| - 1]
    ensures !HasRanks(g)
  {
    if HasRanks(g) {
      var rank :| CyclesAreComposite(g, rank);
      RankFalls(g, rank, path);
      assert false;
    }
  }

  // ---------------------------------------------------------------- through the fourth pass

  /** From `o`, the graph before the pass: untouched types are as they were, and those already mapped
      have paths that end. */
  ghost predicate Grounded(o: Graph, g: Graph, map_: seq<nat>) {
    && |o| == |g| == |map_|
    && (forall x :: 0 <= x < |g| && map_[x] == UNPROCESSED ==> g[x] == o[x])
    && (forall x :: 0 <= x < |g| && IsMapped(map_[x]) ==> Ends(o, x))
  }

  /** The first `j` references of the type in progress `id` led to paths that end, the others are as
      they were. */
  ghost predicate GroundedTo(o: Graph, g: Graph, map_: seq<nat>, id: nat, j: nat) {
    && Grounded(o, g, map_) && id < |o| && |Children(g[id])| == |Children(o[id])|
    && forall i :: 0 <= i < |Children(o[id])| ==>
         if i < j then Ends(o, Children(o[id])[i]) else Children(g[id])[i] == Children(o[id])[i]
  }

  lemma GroundedAtFirst(g: Graph, map_: seq<nat>)
    requires |g| == |map_| && forall x :: 0 <= x < |g| && IsMapped(map_[x]) ==> !IsRedirected(g[x].Kind())
    ensures Grounded(g, g, map_)
  {
    forall x: nat | x < |g| && IsMapped(map_[x])
      ensures Ends(g, x)
    {
      assert Founded(g, x, 0);
    }
  }

  lemma GroundedStart(o: Graph, g: Graph, map_: seq<nat>, id: nat)
    requires Grounded(o, g, map_) && id < |g| && map_[id] == UNPROCESSED
    ensures GroundedTo(o, g, map_[id := IN_PROGRESS], id, 0)
  {
  }

  /** Reference `j` of `id` was settled, leaving `h`, then redirected, leaving `k`. */
  lemma GroundedNext(o: Graph, g: Graph, m: seq<nat>, h: Graph, m': seq<nat>, k: Graph, id: nat, j: nat, to: nat)
    requires GroundedTo(o, g, m, id, j) && Grounded(o, h, m') && j < |Children(o[id])| && Children(o[id])[j] < |m'|
    requires h[id] == g[id] && m'[id] == IN_PROGRESS && IsMapped(m'[Children(o[id])[j]])
    requires |k| == |h| && (forall x :: 0 <= x < |h| && x != id ==> k[x] == h[x])
    requires Children(k[id]) == Children(h[id])[j := to]
    ensures GroundedTo(o, k, m', id, j + 1)
  {
  }

  lemma GroundedFinish(o: Graph, g: Graph, map_: seq<nat>, id: nat, to: nat)
    requires id < |o| && GroundedTo(o, g, map_, id, |Children(o[id])|) && IsMapped(to)
    ensures Grounded(o, g, map_[id := to])
  {
    EndsFromChildren(o, id);
  }

  lemma GroundedThenRanks(o: Graph, g: Graph, map_: seq<nat>)
    requires Grounded(o, g, map_) && forall x :: 0 <= x < |map_| ==> IsMapped(map_[x])
    ensures HasRanks(o)
  {
    EndsThenRanks(o);
  }

  // ---------------------------------------------------------------- one call of the fourth pass

  /** Marking `id` in progress readies its references. */
  lemma Started(o: Graph, g: Graph, map_: seq<nat>, rank: seq<nat>, id: nat)
    requires id < |g| && id < |map_| && map_[id] == UNPROCESSED
    ensures Ready(g, map_, rank, id) ==> KidsReady(g, map_[id := IN_PROGRESS], rank, id, 0)
    ensures Grounded(o, g, map_) ==> GroundedTo(o, g, map_[id := IN_PROGRESS], id, 0)
  {
    if Ready(g, map_, rank, id) {
      ReadyStarts(g, map_, rank, id);
    }
    if Grounded(o, g, map_) {
      GroundedStart(o, g, map_, id);
    }
  }

  /** The call may end with `id` still in progress, */
  lemma StoppedIsAdvanced(g: Graph, m: seq<nat>, h: Graph, m': seq<nat>, t': seq<Cand>, id: nat)
    requires AdvancedExcept(g, m, h, m', t', id) && m[id] == UNPROCESSED
    ensures Advanced(g, m, h, m', t')
  {
  }

  /** or with `id` settled. */
  lemma FinishedIsAdvanced(o: Graph, g: Graph, m: seq<nat>, h: Graph, m': seq<nat>, t': seq<Cand>, id: nat, to: nat,
                           t'': seq<Cand>)
    requires AdvancedExcept(g, m, h, m', t', id) && m[id] == UNPROCESSED && to < |h|
    requires Settled(h, m'[id := to], t'') && Untouched(m'[id := to]) <= Untouched(m')
    ensures Advanced(g, m, h, m'[id := to], t'')
    ensures id < |o| && GroundedTo(o, h, m', id, |Children(o[id])|) ==> Grounded(o, h, m'[id := to])
  {
    if id < |o| && GroundedTo(o, h, m', id, |Children(o[id])|) {
      GroundedFinish(o, h, m', id, to);
    }
  }

  /** Settling and redirecting reference `j` of `id` readies the next. */
  lemma NextIsReady(o: Graph, g: Graph, m: seq<nat>, h: Graph, m': seq<nat>, k: Graph, rank: seq<nat>, id: nat,
                    j: nat, to: nat)
    requires |g| == |m| && id < |g| && Shrunk(g, m, h, m') && h[id] == g[id] && m'[id] == IN_PROGRESS
    requires j < |Children(h[id])| && Children(h[id])[j] < |h| && IsMapped(m'[Children(h[id])[j]])
    requires |k| == |h| && (forall x :: 0 <= x < |h| && x != id ==> k[x] == h[x])
    requires Children(k[id]) == Children(h[id])[j := to] && k[id].info == h[id].info
    ensures KidsReady(g, m, rank, id, j) && SameProgress(m, m') ==> KidsReady(k, m', rank, id, j + 1)
    ensures GroundedTo(o, g, m, id, j) && Grounded(o, h, m') ==> GroundedTo(o, k, m', id, j + 1)
  {
    if KidsReady(g, m, rank, id, j) && SameProgress(m, m') {
      KidsStayReady(g, m, rank, h, m', k, id, j);
    }
    if GroundedTo(o, g, m, id, j) && Grounded(o, h, m') {
      GroundedNext(o, g, m, h, m', k, id, j, to);
    }
  }

  // ---------------------------------------------------------------- the loop over all types

  /** Where the fourth pass began, and what was known then. */
  datatype Pass = Pass(g: Graph, map_: seq<nat>, ready: bool, grounded: bool)

  /** The pass has been over the types below `i`. */
  ghost predicate Passed(p: Pass, rank: seq<nat>, o: Graph, g: Graph, map_: seq<nat>, i: nat) {
    && Equivalent(p.g, g) && MappedStay(p.map_, map_)
    && (forall x :: 0 <= x < i && x < |map_| ==> IsMapped(map_[x]))
    && (p.ready ==> AllReady(g, map_, rank)) && (p.grounded ==> Grounded(o, g, map_))
  }

  lemma MappedStayTrans(a: seq<nat>, b: seq<nat>, c: seq<nat>)
    requires MappedStay(a, b) && MappedStay(b, c)
    ensures MappedStay(a, c)
  {
  }

  lemma PassStopped(p: Pass, rank: seq<nat>, o: Graph, h: Graph, m: seq<nat>, i: nat, k: Graph, m': seq<nat>)
    requires Passed(p, rank, o, h, m, i) && Equivalent(h, k) && MappedStay(m, m')
    ensures Equivalent(p.g, k) && MappedStay(p.map_, m')
  {
    EquivalentTrans(p.g, h, k);
    MappedStayTrans(p.map_, m, m');
  }

  lemma PassNext(p: Pass, rank: seq<nat>, o: Graph, h: Graph, m: seq<nat>, i: nat, k: Graph, m': seq<nat>)
    requires Passed(p, rank, o, h, m, i) && Equivalent(h, k) && MappedStay(m, m') && i < |m| && IsMapped(m'[i])
    requires AllReady(h, m, rank) ==> AllReady(k, m', rank)
    requires Grounded(o, h, m) ==> Grounded(o, k, m')
    ensures Passed(p, rank, o, k, m', i + 1)
  {
    PassStopped(p, rank, o, h, m, i, k, m');
  }
}
