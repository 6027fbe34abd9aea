/** Which definitions C wants complete before which: the strong links of `btf_dump.c`. */
module BtfOrder {
  import opened BtfTypes

  /** A type as the traversal meets it: through a pointer, or by value. */
  datatype Place = Place(id: nat, ptr: bool)

  predicate IsMod(k: Kind) {
    k == CONST || k == VOLATILE || k == RESTRICT
  }

  /** The places one link away that must be complete before `p` is. A pointer needs nothing of a named
      type; an anonymous struct or union is defined inline, so even a pointer to it needs its members. */
  function Next(g: Graph, p: Place): (r: seq<Place>)
    requires GoodGraph(g) && p.id < |g|
    ensures forall j :: 0 <= j < |r| ==> r[j].id < |g|
  {
    var t := g[p.id];
    assert GoodType(t, |g|);
    var cs := Children(t);
    if IsComposite(t.Kind()) then
      if p.ptr && t.name != 0 then [] else Places(cs, false)
    else if t.Kind() == PTR || t.Kind() == FUNC_PROTO then Places(cs, true)
    else if t.Kind() == ARRAY then [Place(cs[0], p.ptr)]
    else if IsMod(t.Kind()) then Places(cs, p.ptr)
    else if t.Kind() == TYPEDEF && !p.ptr then Places(cs, false)
    else []
  }

  function Places(cs: seq<nat>, ptr: bool): (r: seq<Place>)
    ensures |r| == |cs| && forall j :: 0 <= j < |cs| ==> r[j] == Place(cs[j], ptr)
  {
    seq(|cs|, j requires 0 <= j < |cs| => Place(cs[j], ptr))
  }

  /** `q` must be complete before `p`: each link of `path` is a position in `Next`. */
  ghost predicate Needs(g: Graph, p: Place, q: Place, path: seq<nat>)
    requires GoodGraph(g) && p.id < |g|
    decreases |path|
  {
    if path == [] then p == q
    else path[0] < |Next(g, p)| && Needs(g, Next(g, p)[path[0]], q, path[1..])
  }

  /** Types that are emitted as definitions of their own. */
  predicate IsDef(g: Graph, referenced: seq<bool>, id: nat)
    requires id < |g|
  {
    var t := g[id];
    || (IsComposite(t.Kind()) && t.name != 0)
    || ((t.Kind() == ENUM || t.Kind() == FWD) && (t.name != 0 || id >= |referenced| || !referenced[id]))
    || t.Kind() == TYPEDEF
  }

  /** Every definition `p` needs is among `e`. */
  ghost predicate Done(g: Graph, referenced: seq<bool>, e: seq<nat>, p: Place)
    requires GoodGraph(g) && p.id < |g|
  {
    forall d: nat, path: seq<nat> {:trigger Needs(g, p, Place(d, false), path)} ::
      d < |g| && IsDef(g, referenced, d) && Needs(g, p, Place(d, false), path) ==> d in e
  }

  /** Everything on the way to a complete `p`, save `p` itself, is among `e`. */
  ghost predicate Complete(g: Graph, referenced: seq<bool>, e: seq<nat>, p: Place)
    requires GoodGraph(g) && p.id < |g|
  {
    forall j {:trigger Next(g, p)[j]} :: 0 <= j < |Next(g, p)| ==> Done(g, referenced, e, Next(g, p)[j])
  }

  lemma DoneStep(g: Graph, referenced: seq<bool>, e: seq<nat>, p: Place)
    requires GoodGraph(g) && p.id < |g| && Complete(g, referenced, e, p)
    requires !p.ptr && IsDef(g, referenced, p.id) ==> p.id in e
    ensures Done(g, referenced, e, p)
  {
    forall d: nat, path: seq<nat> | d < |g| && IsDef(g, referenced, d) && Needs(g, p, Place(d, false), path)
      ensures d in e
    {
      if path != [] {
        assert Needs(g, Next(g, p)[path[0]], Place(d, false), path[1..]);
        assert Done(g, referenced, e, Next(g, p)[path[0]]);
      }
    }
  }

  lemma DoneMore(g: Graph, referenced: seq<bool>, e: seq<nat>, f: seq<nat>, p: Place)
    requires GoodGraph(g) && p.id < |g| && Done(g, referenced, e, p)
    requires forall d :: d in e ==> d in f
    ensures Done(g, referenced, f, p)
  {
  }

  lemma CompleteMore(g: Graph, referenced: seq<bool>, e: seq<nat>, f: seq<nat>, p: Place)
    requires GoodGraph(g) && p.id < |g| && Complete(g, referenced, e, p)
    requires forall d :: d in e ==> d in f
    ensures Complete(g, referenced, f, p)
  {
    forall j | 0 <= j < |Next(g, p)|
      ensures Done(g, referenced, f, Next(g, p)[j])
    {
      DoneMore(g, referenced, e, f, Next(g, p)[j]);
    }
  }

  /** `p` is the same place as `q`, or met through a pointer where `q` is not. */
  predicate Weaker(p: Place, q: Place) {
    p.id == q.id && (q.ptr ==> p.ptr)
  }

  lemma NextByValue(g: Graph, p: Place, q: Place, j: nat)
    requires GoodGraph(g) && p.id < |g| && Weaker(p, q) && j < |Next(g, p)|
    ensures j < |Next(g, q)| && Weaker(Next(g, p)[j], Next(g, q)[j])
  {
  }

  /** What is needed through a pointer is needed by value, over the same links. */
  lemma {:induction false} NeedsByValue(g: Graph, p: Place, q: Place, d: nat, path: seq<nat>)
    requires GoodGraph(g) && p.id < |g| && Weaker(p, q) && Needs(g, p, Place(d, false), path)
    ensures Needs(g, q, Place(d, false), path)
    decreases |path|
  {
    if path == [] {
      assert p == Place(d, false) && q == p;
    } else {
      NextByValue(g, p, q, path[0]);
      NeedsByValue(g, Next(g, p)[path[0]], Next(g, q)[path[0]], d, path[1..]);
    }
  }

  lemma DoneByValue(g: Graph, referenced: seq<bool>, e: seq<nat>, id: nat)
    requires GoodGraph(g) && id < |g| && Done(g, referenced, e, Place(id, false))
    ensures Done(g, referenced, e, Place(id, true))
  {
    forall d: nat, path: seq<nat> |
      d < |g| && IsDef(g, referenced, d) && Needs(g, Place(id, true), Place(d, false), path)
      ensures d in e
    {
      NeedsByValue(g, Place(id, true), Place(id, false), d, path);
    }
  }

  // ---------------------------------------------------------------- the order of definitions

  /** Each definition comes after those it needs. */
  ghost predicate Ordered(g: Graph, referenced: seq<bool>, e: seq<nat>)
    requires GoodGraph(g)
  {
    forall k {:trigger e[k]} :: 0 <= k < |e| ==> e[k] < |g| && Complete(g, referenced, e[..k], Place(e[k], false))
  }

  /** What that means for two definitions. */
  lemma OrderedMeans(g: Graph, referenced: seq<bool>, e: seq<nat>, k: nat, d: nat, path: seq<nat>)
    requires GoodGraph(g) && Ordered(g, referenced, e) && k < |e| && path != []
    requires d < |g| && IsDef(g, referenced, d) && Needs(g, Place(e[k], false), Place(d, false), path)
    ensures exists i :: 0 <= i < k && e[i] == d
  {
    assert Done(g, referenced, e[..k], Next(g, Place(e[k], false))[path[0]]);
    assert d in e[..k];
  }

  /** What a type holds by value. */
  function Embedded(t: BtfType): seq<nat>
    requires GoodSlots(t)
  {
    if IsComposite(t.Kind()) then SlotRefs(t.slots)
    else if t.Kind() == ARRAY then [t.slots[0].ref]
    else if IsMod(t.Kind()) || t.Kind() == TYPEDEF then [t.sz]
    else []
  }

  /** `d` is part of `id`: each link of `path` is a position in what the type before it holds. */
  ghost predicate Contains(g: Graph, id: nat, d: nat, path: seq<nat>)
    requires GoodGraph(g) && id < |g|
    decreases |path|
  {
    if path == [] then id == d
    else
      assert GoodType(g[id], |g|);
      && path[0] < |Embedded(g[id])|
      && Embedded(g[id])[path[0]] < |g| && Contains(g, Embedded(g[id])[path[0]], d, path[1..])
  }

  lemma EmbeddedIsNext(g: Graph, id: nat, j: nat)
    requires GoodGraph(g) && id < |g| && GoodType(g[id], |g|) && j < |Embedded(g[id])|
    ensures j < |Next(g, Place(id, false))| && Next(g, Place(id, false))[j] == Place(Embedded(g[id])[j], false)
  {
  }

  /** A type needs whatever is part of it. */
  lemma {:induction false} ContainedIsNeeded(g: Graph, id: nat, d: nat, path: seq<nat>)
    requires GoodGraph(g) && id < |g| && Contains(g, id, d, path)
    ensures Needs(g, Place(id, false), Place(d, false), path)
    decreases |path|
  {
    if path != [] {
      assert GoodType(g[id], |g|);
      EmbeddedIsNext(g, id, path[0]);
      ContainedIsNeeded(g, Embedded(g[id])[path[0]], d, path[1..]);
    }
  }

  /** In an ordered list every definition comes after the definitions that are part of it. */
  lemma PartsComeFirst(g: Graph, referenced: seq<bool>, e: seq<nat>, k: nat, d: nat, path: seq<nat>)
    requires GoodGraph(g) && Ordered(g, referenced, e) && k < |e| && path != []
    requires d < |g| && IsDef(g, referenced, d) && Contains(g, e[k], d, path)
    ensures exists i :: 0 <= i < k && e[i] == d
  {
    ContainedIsNeeded(g, e[k], d, path);
    OrderedMeans(g, referenced, e, k, d, path);
  }

  lemma OrderedSnoc(g: Graph, referenced: seq<bool>, e: seq<nat>, id: nat)
    requires GoodGraph(g) && Ordered(g, referenced, e) && id < |g|
    requires Complete(g, referenced, e, Place(id, false))
    ensures Ordered(g, referenced, e + [id])
  {
    var f := e + [id];
    forall k | 0 <= k < |f|
      ensures f[k] < |g| && Complete(g, referenced, f[..k], Place(f[k], false))
    {
      if k < |e| {
        assert f[..k] == e[..k];
      } else {
        assert f[..k] == e;
      }
    }
  }
}
