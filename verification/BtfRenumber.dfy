/** Compaction and remapping: the canonical types get the IDs 1, 2, ... and every reference is rewritten. */
module BtfRenumber {
  import opened BtfTypes
  import opened BtfCanon
  import opened BtfTable
  import opened BtfCopies
  import opened BtfRefs
  import opened Lists

  /** The canonical types below `n`, void apart, in ascending order. */
  function Canonical(map_: seq<nat>, n: nat): (r: seq<nat>)
    requires n <= |map_|
    ensures |r| <= n && (n > 0 ==> |r| < n)
    ensures forall i :: 0 <= i < |r| ==> 0 < r[i] < n && map_[r[i]] == r[i]
  {
    if n <= 1 then []
    else Canonical(map_, n - 1) + if map_[n - 1] == n - 1 then [n - 1] else []
  }

  /** The canonical types below `n` are numbered 1, 2, ... in `hm`, and stand in that order in `h`. */
  ghost predicate Numbered(g: Graph, map_: seq<nat>, hm: seq<nat>, h: Graph, n: nat) {
    && 0 < n <= |map_| == |g| == |hm| && hm[0] == 0
    && |Canonical(map_, n)| < |h| && h[0] == g[0]
    && NumberedIds(g, hm, h, Canonical(map_, n))
    && (forall x :: 0 < x < n && map_[x] == x ==> x in Canonical(map_, n))
  }

  ghost predicate NumberedIds(g: Graph, hm: seq<nat>, h: Graph, ids: seq<nat>) {
    forall i {:trigger ids[i]} :: 0 <= i < |ids| ==>
      && ids[i] < |g| && ids[i] < |hm| && i + 1 < |h|
      && hm[ids[i]] == i + 1 && h[i + 1] == g[ids[i]]
  }

  lemma NumberOne(g: Graph, map_: seq<nat>, hm: seq<nat>, h: Graph, n: nat)
    requires Numbered(g, map_, hm, h, n) && n < |g| == |h| && h[n] == g[n]
    ensures var next := |Canonical(map_, n)| + 1;
      && next <= n
      && (map_[n] == n ==> Numbered(g, map_, hm[n := next], h[next := h[n]], n + 1))
      && (map_[n] != n ==> Numbered(g, map_, hm, h, n + 1))
  {
    var ids := Canonical(map_, n);
    var next := |ids| + 1;
    if map_[n] == n {
      assert Canonical(map_, n + 1) == ids + [n];
      assert NumberedIds(g, hm[n := next], h[next := h[n]], ids + [n]);
    } else {
      assert Canonical(map_, n + 1) == ids;
    }
  }

  ghost predicate Compacting(g: Graph, map_: seq<nat>, hm: seq<nat>, h: Graph, next: nat, i: nat) {
    && |g| == |h| && i <= |g| && Numbered(g, map_, hm, h, i) && next == |Canonical(map_, i)| + 1
    && forall x :: i <= x < |g| ==> h[x] == g[x]
  }

  /** `hypot_map` before the first number is given. */
  function Unnumbered(n: nat): (hm: seq<nat>)
    ensures |hm| == n && (n > 0 ==> hm[0] == 0) && forall x :: 0 < x < n ==> hm[x] == UNPROCESSED
  {
    seq(n, i => if i == 0 then 0 else UNPROCESSED)
  }

  lemma CompactStart(g: Graph, map_: seq<nat>)
    requires |g| == |map_| && |g| > 0 && map_[0] == 0
    ensures Compacting(g, map_, Unnumbered(|g|), g, 1, 1)
  {
  }

  /** One turn of the loop of `btf_dedup_compact_types`. */
  lemma CompactNext(g: Graph, map_: seq<nat>, hm: seq<nat>, h: Graph, next: nat, i: nat)
    requires 1 <= i < |g| && Compacting(g, map_, hm, h, next, i)
    ensures |hm| == |g| && next <= i
    ensures map_[i] == i ==> Compacting(g, map_, hm[i := next], h[next := h[i]], next + 1, i + 1)
    ensures map_[i] != i ==> Compacting(g, map_, hm, h, next, i + 1)
  {
    NumberOne(g, map_, hm, h, i);
  }

  lemma TruncateNumbered(g: Graph, map_: seq<nat>, hm: seq<nat>, h: Graph)
    requires Numbered(g, map_, hm, h, |g|)
    ensures Numbered(g, map_, hm, h[..|Canonical(map_, |g|)| + 1], |g|)
  {
  }

  /** Every type of the compacted graph refers to the new numbers of what the old one referred to. */
  ghost predicate RemappedType(map_: seq<nat>, hm: seq<nat>, t: BtfType, u: BtfType, k: nat) {
    && Shell(u) == Shell(t) && |Children(u)| == |Children(t)| && k <= |Children(t)| && u.info == t.info
    && (forall j :: 0 <= j < k ==> Children(t)[j] < |map_| && Root(map_, Children(t)[j]) < |hm|
                                   && Children(u)[j] == hm[Root(map_, Children(t)[j])])
    && (forall j :: k <= j < |Children(t)| ==> Children(u)[j] == Children(t)[j])
  }

  ghost predicate AllMapped(map_: seq<nat>) {
    forall x :: 0 <= x < |map_| ==> IsMapped(map_[x])
  }

  /** What passes five and six make of graph `g`. */
  ghost predicate Remapped(g: Graph, map_: seq<nat>, hm: seq<nat>, h: Graph, f: Graph) {
    && Numbered(g, map_, hm, h, |g|) && |h| == |f| == |Canonical(map_, |g|)| + 1
    && forall y :: 0 <= y < |h| ==> RemappedType(map_, hm, h[y], f[y], |Children(h[y])|)
  }

  /** The new number of type `x`. */
  function NewId(map_: seq<nat>, hm: seq<nat>, x: nat): nat
    requires Root(map_, x) < |hm|
  {
    hm[Root(map_, x)]
  }

  lemma NewIdIs(g: Graph, map_: seq<nat>, hm: seq<nat>, h: Graph, x: nat)
    requires GoodGraph(g) && GoodMap(g, map_) && AllMapped(map_) && x < |g|
    requires Numbered(g, map_, hm, h, |g|) && |h| == |Canonical(map_, |g|)| + 1
    ensures Root(map_, x) < |g| && map_[Root(map_, x)] == Root(map_, x)
    ensures NewId(map_, hm, x) < |h| && h[NewId(map_, hm, x)] == g[Root(map_, x)]
  {
    RootIs(g, map_, x);
    var r, ids := Root(map_, x), Canonical(map_, |g|);
    if r > 0 {
      var i :| 0 <= i < |ids| && ids[i] == r;
    }
  }

  /** Every type means what its new number means in the final graph. */
  lemma {:induction false} RemapKeepsMeaning(g: Graph, map_: seq<nat>, hm: seq<nat>, h: Graph, f: Graph, x: nat, d: nat)
    requires GoodGraph(g) && GoodMap(g, map_) && AllMapped(map_) && Remapped(g, map_, hm, h, f) && x < |g|
    ensures Root(map_, x) < |hm| && Unfold(f, NewId(map_, hm, x), d) == Unfold(g, x, d)
    decreases d
  {
    NewIdIs(g, map_, hm, h, x);
    if d > 0 {
      var r, y := Root(map_, x), NewId(map_, hm, x);
      RemappedAt(g, map_, hm, h, f, y);
      assert GoodType(g[r], |g|);
      var ks, ks' := Kids(f, f[y], d - 1), Kids(g, g[r], d - 1);
      forall j | 0 <= j < |ks|
        ensures ks[j] == ks'[j]
      {
        KidAt(f, f[y], d - 1, j);
        KidAt(g, g[r], d - 1, j);
        RemapKeepsMeaning(g, map_, hm, h, f, Children(g[r])[j], d - 1);
      }
      assert ks == ks';
      RootsMeanSame(g, map_, x, r, d);
    }
  }

  lemma RemappedAt(g: Graph, map_: seq<nat>, hm: seq<nat>, h: Graph, f: Graph, y: nat)
    requires Remapped(g, map_, hm, h, f) && y < |h|
    ensures y < |f| && RemappedType(map_, hm, h[y], f[y], |Children(h[y])|)
    ensures Shell(f[y]) == Shell(h[y]) && |Children(f[y])| == |Children(h[y])|
  {
  }

  /** What `t` refers to has a new number. */
  ghost predicate ReferencesNumbered(map_: seq<nat>, hm: seq<nat>, t: BtfType) {
    forall j :: 0 <= j < |Children(t)| ==>
      && Children(t)[j] < |map_| && Root(map_, Children(t)[j]) < |hm| && IsMapped(hm[Root(map_, Children(t)[j])])
  }

  lemma NumberedChildren(g: Graph, map_: seq<nat>, hm: seq<nat>, h: Graph)
    requires GoodGraph(g) && GoodMap(g, map_) && AllMapped(map_)
    requires Numbered(g, map_, hm, h, |g|) && |h| == |Canonical(map_, |g|)| + 1
    ensures forall y :: 0 <= y < |h| ==> ReferencesNumbered(map_, hm, h[y])
  {
    forall y: nat, j: nat | y < |h| && j < |Children(h[y])|
      ensures Children(h[y])[j] < |g| && Root(map_, Children(h[y])[j]) < |g|
      ensures IsMapped(hm[Root(map_, Children(h[y])[j])])
    {
      if y > 0 {
        var r := Canonical(map_, |g|)[y - 1];
        assert h[y] == g[r];
        assert GoodType(g[r], |g|);
      }
      NewIdIs(g, map_, hm, h, Children(h[y])[j]);
    }
  }

  /** The result of a deduplication: no type lost its meaning, the new IDs are dense, and no two
      types that are compared exactly are left equal. */
  ghost predicate Deduplicated(g: Graph, f: Graph, newId: seq<nat>) {
    && |newId| == |g| && 0 < |f| <= |g| && newId[0] == 0
    && (forall x :: 0 <= x < |g| ==> newId[x] < |f| && Same(f, newId[x], g, x))
    && (forall y :: 0 <= y < |f| ==> y in newId)
    && (forall y, z :: 0 < y < z < |f| && IsExact(f[y].Kind()) && f[y].Kind() != FWD ==> f[y] != f[z])
  }

  lemma ShellAndChildren(t: BtfType, u: BtfType)
    requires Shell(t) == Shell(u) && Children(t) == Children(u) && GoodSlots(t) && GoodSlots(u)
    ensures t == u
  {
    assert t.info == Shell(t).info == Shell(u).info == u.info;
    assert |t.slots| == |Shell(t).slots| == |Shell(u).slots| == |u.slots|;
    var k := if SzIsRef(t.Kind()) then 1 else 0;
    forall i | 0 <= i < |t.slots|
      ensures t.slots[i] == u.slots[i]
    {
      assert Shell(t).slots[i] == Shell(u).slots[i];
      if SlotsAreRefs(t.Kind()) {
        assert Children(t)[k + i] == t.slots[i].ref && Children(u)[k + i] == u.slots[i].ref;
      }
    }
    if SzIsRef(t.Kind()) {
      assert Children(t)[0] == t.sz && Children(u)[0] == u.sz;
    } else {
      assert Shell(t).sz == t.sz && Shell(u).sz == u.sz;
    }
  }

  /** Two canonical types whose remapped records are equal were equal. */
  lemma EqualBefore(g: Graph, map_: seq<nat>, hm: seq<nat>, h: Graph, t: BtfType, u: BtfType, t': BtfType)
    requires Numbered(g, map_, hm, h, |g|) && GoodSlots(t) && GoodSlots(u)
    requires RemappedType(map_, hm, t, t', |Children(t)|) && RemappedType(map_, hm, u, t', |Children(u)|)
    requires forall j :: 0 <= j < |Children(t)| ==> map_[Children(t)[j]] == Children(t)[j]
    requires forall j :: 0 <= j < |Children(u)| ==> Children(u)[j] < |map_| && map_[Children(u)[j]] == Children(u)[j]
    requires |map_| <= MAX_NR_TYPES
    ensures t == u
  {
    forall j | 0 <= j < |Children(t)|
      ensures Children(t)[j] == Children(u)[j]
    {
      NumbersDiffer(g, map_, hm, h, Children(t)[j], Children(u)[j]);
    }
    assert Children(t) == Children(u);
    ShellAndChildren(t, u);
  }

  lemma NumbersDiffer(g: Graph, map_: seq<nat>, hm: seq<nat>, h: Graph, a: nat, b: nat)
    requires Numbered(g, map_, hm, h, |g|) && a < |g| && b < |g| && map_[a] == a && map_[b] == b
    ensures hm[a] == hm[b] ==> a == b
  {
    var ids := Canonical(map_, |g|);
    if a > 0 {
      var i :| 0 <= i < |ids| && ids[i] == a;
    }
    if b > 0 {
      var i :| 0 <= i < |ids| && ids[i] == b;
    }
  }

  /** The canonical type that the `y`-th type of the result was. */
  lemma OldOf(g: Graph, map_: seq<nat>, hm: seq<nat>, h: Graph, f: Graph, y: nat) returns (r: nat)
    requires GoodGraph(g) && Remapped(g, map_, hm, h, f) && 0 < y < |f|
    ensures 0 < r < |g| && map_[r] == r && hm[r] == y && h[y] == g[r] && GoodSlots(g[r])
    ensures RemappedType(map_, hm, g[r], f[y], |Children(g[r])|)
  {
    var ids := Canonical(map_, |g|);
    r := ids[y - 1];
    RemappedAt(g, map_, hm, h, f, y);
    assert GoodType(g[r], |g|);
  }

  lemma ResultIsUnique(g: Graph, map_: seq<nat>, table: seq<Cand>, hm: seq<nat>, h: Graph, f: Graph, y: nat, z: nat)
    requires Settled(g, map_, table) && Remapped(g, map_, hm, h, f) && 0 < y < |f| && 0 < z < |f| && y != z
    requires IsExact(f[y].Kind()) && f[y].Kind() != FWD
    ensures f[y] != f[z]
  {
    var r := OldOf(g, map_, hm, h, f, y);
    var q := OldOf(g, map_, hm, h, f, z);
    assert g[r] != g[q];
    if f[y] == f[z] {
      assert Children(g[r]) == [] || IsRedirected(g[r].Kind());
      EqualBefore(g, map_, hm, h, g[r], g[q], f[y]);
    }
  }

  /** Canonical types keep their order under the new IDs. */
  ghost predicate InOrder(canon: seq<nat>, newId: seq<nat>) {
    |canon| == |newId| && forall x, y :: 0 <= x < y < |canon| && canon[x] == x && canon[y] == y ==> newId[x] < newId[y]
  }

  lemma {:induction false} CanonicalAscends(map_: seq<nat>, n: nat)
    requires n <= |map_|
    ensures forall i, j :: 0 <= i < j < |Canonical(map_, n)| ==> Canonical(map_, n)[i] < Canonical(map_, n)[j]
  {
    if n > 1 {
      CanonicalAscends(map_, n - 1);
    }
  }

  lemma Before(ids: seq<nat>, i: nat, j: nat)
    requires i < |ids| && j < |ids| && ids[i] < ids[j]
    requires forall i, j :: 0 <= i < j < |ids| ==> ids[i] < ids[j]
    ensures i < j
  {
  }

  lemma NumbersAscend(g: Graph, map_: seq<nat>, hm: seq<nat>, h: Graph, x: nat, y: nat)
    requires Numbered(g, map_, hm, h, |g|) && x < y < |g| && map_[x] == x && map_[y] == y
    requires forall i, j :: 0 <= i < j < |Canonical(map_, |g|)| ==> Canonical(map_, |g|)[i] < Canonical(map_, |g|)[j]
    ensures hm[x] < hm[y]
  {
    var ids := Canonical(map_, |g|);
    var j :| 0 <= j < |ids| && ids[j] == y;
    if x > 0 {
      var i :| 0 <= i < |ids| && ids[i] == x;
      Before(ids, i, j);
    }
  }

  lemma ResultFolds(g: Graph, map_: seq<nat>, hm: seq<nat>, h: Graph, newId: seq<nat>)
    requires GoodMap(g, map_) && AllMapped(map_) && Numbered(g, map_, hm, h, |g|) && |newId| == |g| <= |hm|
    requires forall x :: 0 <= x < |g| ==> newId[x] == At(hm, Root(map_, x))
    ensures Folds(map_, newId) && InOrder(map_, newId)
  {
    forall x, y | 0 <= x < y < |g| && map_[x] == x && map_[y] == y
      ensures newId[x] < newId[y]
    {
      CanonicalAscends(map_, |g|);
      NumbersAscend(g, map_, hm, h, x, y);
    }
    GoodMapIsFlat(g, map_);
    forall x, y | 0 <= x < |g| && 0 <= y < |g|
      ensures newId[x] == newId[y] <==> map_[x] == map_[y]
    {
      NumbersDiffer(g, map_, hm, h, map_[x], map_[y]);
    }
  }

  lemma ResultIsDeduplicated(g: Graph, map_: seq<nat>, table: seq<Cand>, hm: seq<nat>, h: Graph, f: Graph)
    returns (newId: seq<nat>)
    requires Settled(g, map_, table) && AllMapped(map_) && Remapped(g, map_, hm, h, f)
    ensures Deduplicated(g, f, newId) && Folds(map_, newId) && InOrder(map_, newId)
  {
    newId := seq(|g|, x requires 0 <= x < |g| => At(hm, Root(map_, x)));
    ResultFolds(g, map_, hm, h, newId);
    forall x | 0 <= x < |g|
      ensures newId[x] < |f| && Same(f, newId[x], g, x)
    {
      NewIdIs(g, map_, hm, h, x);
      forall d: nat
        ensures Unfold(f, newId[x], d) == Unfold(g, x, d)
      {
        RemapKeepsMeaning(g, map_, hm, h, f, x, d);
      }
    }
    forall y | 0 <= y < |f|
      ensures y in newId
    {
      if y == 0 {
        assert newId[0] == 0;
      } else {
        var r := OldOf(g, map_, hm, h, f, y);
        assert newId[r] == y;
      }
    }
    forall y, z | 0 < y < z < |f| && IsExact(f[y].Kind()) && f[y].Kind() != FWD
      ensures f[y] != f[z]
    {
      ResultIsUnique(g, map_, table, hm, h, f, y, z);
    }
  }

  function At(s: seq<nat>, i: nat): nat {
    if i < |s| then s[i] else 0
  }

  lemma DeduplicatedCarries(g: Graph, h: Graph, f: Graph, newId: seq<nat>)
    requires Equivalent(g, h) && Deduplicated(h, f, newId)
    ensures Deduplicated(g, f, newId)
  {
    forall x | 0 <= x < |g|
      ensures Same(f, newId[x], g, x)
    {
      forall d: nat
        ensures Unfold(f, newId[x], d) == Unfold(g, x, d)
      {
        assert Unfold(g, x, d) == Unfold(h, x, d);
        assert Same(f, newId[x], h, x);
        assert Unfold(f, newId[x], d) == Unfold(h, x, d);
      }
    }
  }

  /** Where the structs with one tree are copies of each other, one canonical type stands for all. */
  lemma CopiesAreMerged(g: Graph, f: Graph, newId: seq<nat>, canon: seq<nat>)
    requires GoodGraph(g) && Deduplicated(g, f, newId) && Folds(canon, newId) && OneOfTwins(g, canon) && canon[0] == 0
    ensures CopiesMerged(g, newId)
  {
    forall x, y | 0 < x < |g| && 0 < y < |g| && IsComposite(g[x].Kind()) && Twins(g, x, y) && OnlyTwins(g, x)
      ensures newId[x] == newId[y]
    {
      CopyIsSame(g, y, x);
      CanonicalIsSame(g, f, newId, canon, x);
      CanonicalIsSame(g, f, newId, canon, y);
      TwinsMeet(g, newId, canon, x, y);
    }
  }
}
