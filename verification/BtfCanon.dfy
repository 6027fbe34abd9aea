/** The canonical map, the hypothetical map, and why they preserve meaning. */
module BtfCanon {
  import opened BtfTypes
  import opened Lists

  const MAX_NR_TYPES: nat := 0x7fff_ffff
  const UNPROCESSED: nat := 0xffff_ffff
  const IN_PROGRESS: nat := 0xffff_fffe

  predicate IsMapped(m: nat) {
    m <= MAX_NR_TYPES
  }

  // ---------------------------------------------------------------- the canonical map

  /** Where `resolve_type_id` ends. */
  function Root(map_: seq<nat>, x: nat): nat {
    if x < |map_| && IsMapped(map_[x]) then map_[x] else x
  }

  /** Every mapped type is mapped to a canonical one, itself mapped to itself, of the same meaning. */
  ghost predicate GoodMap(g: Graph, map_: seq<nat>) {
    && |map_| == |g| <= MAX_NR_TYPES
    && 0 < |map_| && map_[0] == 0
    && (forall x :: 0 <= x < |map_| ==> IsMapped(map_[x]) || map_[x] == UNPROCESSED || map_[x] == IN_PROGRESS)
    && (forall x {:trigger GoodEntry(g, map_, x)} :: 0 <= x < |map_| && IsMapped(map_[x]) ==> GoodEntry(g, map_, x))
  }

  ghost predicate GoodEntry(g: Graph, map_: seq<nat>, x: nat)
    requires x < |map_|
  {
    map_[x] < |map_| && map_[map_[x]] == map_[x] && Same(g, x, g, map_[x])
  }

  /** Following the map once is following it to the end. */
  ghost predicate Flat(map_: seq<nat>) {
    forall x :: 0 <= x < |map_| && IsMapped(map_[x]) ==> map_[x] < |map_| && map_[map_[x]] == map_[x]
  }

  lemma GoodMapIsFlat(g: Graph, map_: seq<nat>)
    requires GoodMap(g, map_)
    ensures Flat(map_)
  {
    forall x: nat | x < |map_| && IsMapped(map_[x])
      ensures map_[x] < |map_| && map_[map_[x]] == map_[x]
    {
      assert GoodEntry(g, map_, x);
    }
  }

  lemma RootIs(g: Graph, map_: seq<nat>, x: nat)
    requires GoodMap(g, map_) && x < |g|
    ensures Root(map_, x) < |g| && Root(map_, Root(map_, x)) == Root(map_, x)
    ensures Same(g, x, g, Root(map_, x))
    ensures IsMapped(map_[x]) ==> map_[Root(map_, x)] == Root(map_, x)
  {
    if IsMapped(map_[x]) {
      assert GoodEntry(g, map_, x);
    }
  }

  /** Recording that `x`, not canonical so far, is `to`: a canonical type of the same meaning, or `x`. */
  lemma MapOne(g: Graph, map_: seq<nat>, x: nat, to: nat)
    requires GoodMap(g, map_) && 0 < x < |map_| && to < |map_|
    requires map_[x] != x && (x == to || map_[to] == to)
    requires Same(g, x, g, to)
    ensures GoodMap(g, map_[x := to])
  {
    var m := map_[x := to];
    forall y: nat | y < |m| && IsMapped(m[y])
      ensures GoodEntry(g, m, y)
    {
      if y != x {
        assert GoodEntry(g, map_, y);
      }
    }
  }

  lemma MarkInProgress(g: Graph, map_: seq<nat>, x: nat)
    requires GoodMap(g, map_) && 0 < x < |map_| && !IsMapped(map_[x])
    ensures GoodMap(g, map_[x := IN_PROGRESS])
  {
    var m := map_[x := IN_PROGRESS];
    forall y: nat | y < |m| && IsMapped(m[y])
      ensures GoodEntry(g, m, y)
    {
      assert GoodEntry(g, map_, y);
    }
  }

  lemma SameSelf(g: Graph, x: nat)
    ensures Same(g, x, g, x)
  {
  }

  lemma SameTrans(g: Graph, a: nat, b: nat, c: nat)
    requires Same(g, a, g, b) && Same(g, b, g, c)
    ensures Same(g, a, g, c)
  {
    forall d: nat
      ensures Unfold(g, a, d) == Unfold(g, c, d)
    {
      assert Unfold(g, a, d) == Unfold(g, b, d);
    }
  }

  lemma SameSym(g: Graph, a: nat, b: nat)
    requires Same(g, a, g, b)
    ensures Same(g, b, g, a)
  {
    forall d: nat
      ensures Unfold(g, b, d) == Unfold(g, a, d)
    {
      assert Unfold(g, a, d) == Unfold(g, b, d);
    }
  }

  /** Types of the same meaning have the same shell, so the same kind. */
  lemma SameShell(g: Graph, a: nat, b: nat)
    requires a < |g| && b < |g| && Same(g, a, g, b)
    ensures Shell(g[a]) == Shell(g[b]) && g[a].Kind() == g[b].Kind()
  {
    assert Unfold(g, a, 1) == Unfold(g, b, 1);
    assert Shell(g[a]).Kind() == g[a].Kind();
  }

  lemma SameRecord(g: Graph, a: nat, b: nat)
    requires a < |g| && b < |g| && g[a] == g[b]
    ensures Same(g, a, g, b)
  {
  }

  lemma SameCarries(g: Graph, h: Graph, a: nat, b: nat)
    requires Equivalent(g, h) && Same(g, a, g, b)
    ensures Same(h, a, h, b)
  {
    forall d: nat
      ensures Unfold(h, a, d) == Unfold(h, b, d)
    {
      assert Unfold(g, a, d) == Unfold(g, b, d);
    }
  }

  /** A change of the graph that keeps meanings keeps the canonical map good. */
  lemma GoodMapCarries(g: Graph, h: Graph, map_: seq<nat>)
    requires GoodMap(g, map_) && Equivalent(g, h)
    ensures GoodMap(h, map_)
  {
    forall x: nat | x < |map_| && IsMapped(map_[x])
      ensures GoodEntry(h, map_, x)
    {
      assert GoodEntry(g, map_, x);
      SameCarries(g, h, x, map_[x]);
    }
  }

  lemma EquivalentTrans(g: Graph, h: Graph, k: Graph)
    requires Equivalent(g, h) && Equivalent(h, k)
    ensures Equivalent(g, k)
  {
    forall x: nat, d: nat
      ensures Unfold(g, x, d) == Unfold(k, x, d)
    {
      assert Unfold(h, x, d) == Unfold(k, x, d);
      assert Unfold(g, x, d) == Unfold(h, x, d);
    }
  }

  // ---------------------------------------------------------------- the hypothetical map

  /** `hypot_list` names exactly the entries of `hypot_map` that are set. */
  ghost predicate GoodHypot(n: nat, hm: seq<nat>, hl: seq<nat>) {
    && |hm| == n <= MAX_NR_TYPES && NoDup(hl)
    && (forall i :: 0 <= i < |hl| ==> hl[i] < n && hm[hl[i]] < n)
    && (forall x :: 0 <= x < n && x !in hl ==> hm[x] == UNPROCESSED)
  }

  ghost predicate Extends(hm: seq<nat>, hl: seq<nat>, hm': seq<nat>, hl': seq<nat>) {
    && |hm| == |hm'| && |hl| <= |hl'| && hl'[..|hl|] == hl
    && forall i :: 0 <= i < |hl| && hl[i] < |hm| ==> hm'[hl[i]] == hm[hl[i]]
  }

  /** Candidate `a` is taken for canonical type `b`: already, or by hypothesis. */
  ghost predicate Related(map_: seq<nat>, hm: seq<nat>, a: nat, b: nat) {
    Root(map_, a) == Root(map_, b) || (b < |hm| && hm[b] == a)
  }

  predicate IsData(k: Kind) {
    k == VAR || k == DATASEC
  }

  /** What the graph check compares before it follows references. The word of a forward declaration that
      counts as a reference must agree too. */
  predicate Alike(a: BtfType, b: BtfType) {
    && Shell(a) == Shell(b) && |Children(a)| == |Children(b)| && Checkable(a.Kind())
    && (a.Kind() == FWD ==> a.sz == b.sz)
  }

  predicate Checkable(k: Kind) {
    k != VOID && !IsData(k)
  }

  /** The hypothesis about canonical type `x` has been checked one step deep. */
  ghost predicate Justified(g: Graph, map_: seq<nat>, hm: seq<nat>, x: nat) {
    && x < |g| && x < |hm| && hm[x] < |g|
    && var y := hm[x];
    && Alike(g[y], g[x])
    && forall j :: 0 <= j < |Children(g[x])| ==> Related(map_, hm, Children(g[y])[j], Children(g[x])[j])
  }

  lemma RelatedStays(n: nat, map_: seq<nat>, hm: seq<nat>, hl: seq<nat>, hm': seq<nat>, hl': seq<nat>, a: nat, b: nat)
    requires GoodHypot(n, hm, hl) && Extends(hm, hl, hm', hl') && a < n
    requires Related(map_, hm, a, b)
    ensures Related(map_, hm', a, b)
  {
    if Root(map_, a) != Root(map_, b) {
      assert b in hl;
    }
  }

  lemma JustifiedStays(g: Graph, map_: seq<nat>, hm: seq<nat>, hl: seq<nat>, hm': seq<nat>, hl': seq<nat>, x: nat)
    requires GoodGraph(g) && GoodHypot(|g|, hm, hl) && Extends(hm, hl, hm', hl')
    requires x in hl && Justified(g, map_, hm, x)
    ensures Justified(g, map_, hm', x)
  {
    var y := hm[x];
    assert hm'[x] == y;
    assert GoodType(g[y], |g|);
    forall j | 0 <= j < |Children(g[x])|
      ensures Related(map_, hm', Children(g[y])[j], Children(g[x])[j])
    {
      RelatedStays(|g|, map_, hm, hl, hm', hl', Children(g[y])[j], Children(g[x])[j]);
    }
  }

  lemma ExtendsTrans(n: nat, hm: seq<nat>, hl: seq<nat>, hm': seq<nat>, hl': seq<nat>, hm'': seq<nat>, hl'': seq<nat>)
    requires GoodHypot(n, hm, hl) && Extends(hm, hl, hm', hl') && Extends(hm', hl', hm'', hl'')
    ensures Extends(hm, hl, hm'', hl'')
  {
    assert hl''[..|hl|] == hl''[..|hl'|][..|hl|];
    forall i | 0 <= i < |hl|
      ensures hm''[hl[i]] == hm[hl[i]]
    {
      assert hl'[i] == hl'[..|hl|][i] == hl[i];
    }
  }

  lemma ExtendsKeeps(hm: seq<nat>, hl: seq<nat>, hm': seq<nat>, hl': seq<nat>, x: nat)
    requires Extends(hm, hl, hm', hl') && x in hl && x < |hm|
    ensures hm'[x] == hm[x]
  {
  }

  lemma HypotAdded(n: nat, hm: seq<nat>, hl: seq<nat>, x: nat, y: nat)
    requires GoodHypot(n, hm, hl) && x < n && y < n && !IsMapped(hm[x])
    ensures GoodHypot(n, hm[x := y], hl + [x])
    ensures Extends(hm, hl, hm[x := y], hl + [x])
  {
    assert x !in hl;
  }

  /** The hypotheses from position `from` on are justified. */
  ghost predicate JustifiedFrom(g: Graph, map_: seq<nat>, hm: seq<nat>, hl: seq<nat>, from: nat) {
    forall i {:trigger Justified(g, map_, hm, hl[i])} :: from <= i < |hl| ==> Justified(g, map_, hm, hl[i])
  }

  lemma JustifiedFromStays(g: Graph, map_: seq<nat>, hm: seq<nat>, hl: seq<nat>, hm': seq<nat>, hl': seq<nat>,
                           from: nat)
    requires GoodGraph(g) && GoodHypot(|g|, hm, hl) && Extends(hm, hl, hm', hl')
    requires JustifiedFrom(g, map_, hm, hl, from) && JustifiedFrom(g, map_, hm', hl', |hl|)
    ensures JustifiedFrom(g, map_, hm', hl', from)
  {
    forall i | from <= i < |hl'|
      ensures Justified(g, map_, hm', hl'[i])
    {
      if i < |hl| {
        assert hl'[i] == hl'[..|hl|][i] == hl[i];
        assert Justified(g, map_, hm, hl[i]);
        JustifiedStays(g, map_, hm, hl, hm', hl', hl[i]);
      } else {
        assert Justified(g, map_, hm', hl'[i]);
      }
    }
  }

  lemma JustifiedFromOne(g: Graph, map_: seq<nat>, hm: seq<nat>, hl: seq<nat>, from: nat)
    requires from < |hl| && Justified(g, map_, hm, hl[from]) && JustifiedFrom(g, map_, hm, hl, from + 1)
    ensures JustifiedFrom(g, map_, hm, hl, from)
  {
  }

  /** The order in which `btf_dedup_is_equiv` follows the references: an array's index type first. */
  function Visit(k: Kind, i: nat): nat {
    if k == ARRAY && i < 2 then 1 - i else i
  }

  /** The first `k` references visited are related. */
  ghost predicate ChildrenRelated(g: Graph, map_: seq<nat>, hm: seq<nat>, a: nat, b: nat, k: nat) {
    && a < |g| && b < |g| && |Children(g[a])| == |Children(g[b])|
    && forall i :: 0 <= i < k && Visit(g[a].Kind(), i) < |Children(g[a])| ==>
         Related(map_, hm, Children(g[a])[Visit(g[a].Kind(), i)], Children(g[b])[Visit(g[a].Kind(), i)])
  }

  lemma ChildrenRelatedStays(g: Graph, map_: seq<nat>, hm: seq<nat>, hl: seq<nat>, hm': seq<nat>, hl': seq<nat>,
                             a: nat, b: nat, k: nat)
    requires GoodGraph(g) && GoodHypot(|g|, hm, hl) && Extends(hm, hl, hm', hl')
    requires ChildrenRelated(g, map_, hm, a, b, k)
    ensures ChildrenRelated(g, map_, hm', a, b, k)
  {
    assert GoodType(g[a], |g|);
    forall i: nat | i < k && Visit(g[a].Kind(), i) < |Children(g[a])|
      ensures Related(map_, hm', Children(g[a])[Visit(g[a].Kind(), i)], Children(g[b])[Visit(g[a].Kind(), i)])
    {
      var j := Visit(g[a].Kind(), i);
      assert Related(map_, hm, Children(g[a])[j], Children(g[b])[j]);
      RelatedStays(|g|, map_, hm, hl, hm', hl', Children(g[a])[j], Children(g[b])[j]);
    }
  }

  /** Where the loop over the references stands after `k` of them, since `hm0`, `hl0`. */
  ghost predicate Checked(g: Graph, map_: seq<nat>, hm0: seq<nat>, hl0: seq<nat>, hm: seq<nat>, hl: seq<nat>,
                          a: nat, b: nat, k: nat) {
    && GoodHypot(|g|, hm, hl) && Extends(hm0, hl0, hm, hl)
    && ChildrenRelated(g, map_, hm, a, b, k) && JustifiedFrom(g, map_, hm, hl, |hl0|)
  }

  lemma CheckedOne(g: Graph, map_: seq<nat>, hm0: seq<nat>, hl0: seq<nat>, hm: seq<nat>, hl: seq<nat>,
                   hm': seq<nat>, hl': seq<nat>, a: nat, b: nat, k: nat)
    requires GoodGraph(g) && GoodHypot(|g|, hm0, hl0) && Checked(g, map_, hm0, hl0, hm, hl, a, b, k)
    requires GoodHypot(|g|, hm', hl') && Extends(hm, hl, hm', hl')
    requires JustifiedFrom(g, map_, hm', hl', |hl|)
    requires var j := Visit(g[a].Kind(), k);
      j < |Children(g[a])| && Related(map_, hm', Children(g[a])[j], Children(g[b])[j])
    ensures Checked(g, map_, hm0, hl0, hm', hl', a, b, k + 1)
  {
    ExtendsTrans(|g|, hm0, hl0, hm, hl, hm', hl');
    ChildrenRelatedStays(g, map_, hm, hl, hm', hl', a, b, k);
    JustifiedFromStays(g, map_, hm, hl, hm', hl', |hl0|);
  }

  /** Visiting all references reaches each of them. */
  lemma AllChildrenRelated(g: Graph, map_: seq<nat>, hm: seq<nat>, a: nat, b: nat)
    requires a < |g| && GoodSlots(g[a]) && ChildrenRelated(g, map_, hm, a, b, |Children(g[a])|)
    ensures forall j :: 0 <= j < |Children(g[a])| ==> Related(map_, hm, Children(g[a])[j], Children(g[b])[j])
  {
    forall j: nat | j < |Children(g[a])|
      ensures Related(map_, hm, Children(g[a])[j], Children(g[b])[j])
    {
      assert Visit(g[a].Kind(), Visit(g[a].Kind(), j)) == j;
      assert Visit(g[a].Kind(), j) < |Children(g[a])|;
    }
  }

  /** A list without repetition of numbers below `n` has at most `n` elements. */
  lemma {:induction false} AtMost(s: seq<nat>, n: nat)
    requires NoDup(s) && forall i :: 0 <= i < |s| ==> s[i] < n
    ensures |s| <= n
    decreases n
  {
    if n > 0 {
      var r := Unlink(s, n - 1);
      if n - 1 in s {
        assert forall i :: 0 <= i < |r| ==> r[i] < n - 1;
      }
      AtMost(r, n - 1);
    }
  }

  // ---------------------------------------------------------------- soundness of the graph check

  lemma JustifiedAt(g: Graph, map_: seq<nat>, hm: seq<nat>, hl: seq<nat>, x: nat)
    requires GoodGraph(g) && GoodHypot(|g|, hm, hl) && JustifiedFrom(g, map_, hm, hl, 0) && x in hl
    ensures Justified(g, map_, hm, x)
    ensures forall j :: 0 <= j < |Children(g[x])| ==> Children(g[x])[j] < |g| && Children(g[hm[x]])[j] < |g|
  {
    var i :| 0 <= i < |hl| && hl[i] == x;
    assert Justified(g, map_, hm, hl[i]);
    assert GoodType(g[x], |g|) && GoodType(g[hm[x]], |g|);
  }

  /** Coinduction, as induction on the depth: when every hypothesis is justified, the recorded pairs
      with the existing canonical equalities form a bisimulation, so the pairs mean the same. */
  lemma {:induction false} BisimulationIsSound(g: Graph, map_: seq<nat>, hm: seq<nat>, hl: seq<nat>, x: nat, d: nat)
    requires GoodGraph(g) && GoodMap(g, map_) && GoodHypot(|g|, hm, hl)
    requires JustifiedFrom(g, map_, hm, hl, 0) && x in hl
    ensures Unfold(g, hm[x], d) == Unfold(g, x, d)
    decreases d, 0
  {
    if d > 0 {
      JustifiedAt(g, map_, hm, hl, x);
      var ks, ks' := Kids(g, g[hm[x]], d - 1), Kids(g, g[x], d - 1);
      forall j | 0 <= j < |ks|
        ensures ks[j] == ks'[j]
      {
        KidAt(g, g[hm[x]], d - 1, j);
        KidAt(g, g[x], d - 1, j);
        RelatedUnfold(g, map_, hm, hl, Children(g[hm[x]])[j], Children(g[x])[j], d - 1);
      }
      assert ks == ks';
    }
  }

  lemma {:induction false} RelatedUnfold(g: Graph, map_: seq<nat>, hm: seq<nat>, hl: seq<nat>, a: nat, b: nat, d: nat)
    requires GoodGraph(g) && GoodMap(g, map_) && GoodHypot(|g|, hm, hl)
    requires JustifiedFrom(g, map_, hm, hl, 0) && Related(map_, hm, a, b) && a < |g| && b < |g|
    ensures Unfold(g, a, d) == Unfold(g, b, d)
    decreases d, 1
  {
    if Root(map_, a) == Root(map_, b) {
      RootsMeanSame(g, map_, a, b, d);
    } else {
      assert b in hl;
      BisimulationIsSound(g, map_, hm, hl, b, d);
    }
  }

  lemma RootsMeanSame(g: Graph, map_: seq<nat>, a: nat, b: nat, d: nat)
    requires GoodMap(g, map_) && a < |g| && b < |g| && Root(map_, a) == Root(map_, b)
    ensures Unfold(g, a, d) == Unfold(g, b, d)
  {
    RootIs(g, map_, a);
    RootIs(g, map_, b);
    assert Unfold(g, a, d) == Unfold(g, Root(map_, a), d);
    assert Unfold(g, b, d) == Unfold(g, Root(map_, b), d);
  }

  /** So a related pair means the same. */
  lemma RelatedMeansSame(g: Graph, map_: seq<nat>, hm: seq<nat>, hl: seq<nat>, a: nat, b: nat)
    requires GoodGraph(g) && GoodMap(g, map_) && GoodHypot(|g|, hm, hl)
    requires JustifiedFrom(g, map_, hm, hl, 0) && Related(map_, hm, a, b) && a < |g| && b < |g|
    ensures Same(g, a, g, b)
  {
    forall d: nat
      ensures Unfold(g, a, d) == Unfold(g, b, d)
    {
      RelatedUnfold(g, map_, hm, hl, a, b, d);
    }
  }

  // ---------------------------------------------------------------- graphs of C types

  /** Only sections refer to variables, and nothing refers to sections. */
  ghost predicate NoVarRefs(g: Graph) {
    forall x, j {:trigger Children(g[x])[j]} ::
      0 <= x < |g| && !IsData(g[x].Kind()) && 0 <= j < |Children(g[x])| && Children(g[x])[j] < |g| ==>
        !IsData(g[Children(g[x])[j]].Kind())
  }
}
