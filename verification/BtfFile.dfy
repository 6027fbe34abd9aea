/** `btf__dedup` from end to end: the string pass, then the type passes. */
module BtfFile {
  import opened BtfTypes
  import opened BtfCanon
  import opened BtfNames
  import opened BtfStrings
  import opened BtfStringPass
  import opened BtfStringDedup
  import opened BtfRefs
  import opened BtfFounded
  import opened BtfTable
  import opened BtfRenumber
  import opened BtfDedup
  import opened BtfCopies
  import opened BtfSpelledCopies

  // ---------------------------------------------------------------- renaming keeps the graph good

  lemma RenamedSlots(d: string, t: BtfType, e: string, u: BtfType)
    requires GoodSlots(t) && SameNames(d, t, e, u)
    ensures GoodSlots(u) && Children(u) == Children(t) && u.info == t.info
  {
    UnnamedChildren(t, u);
  }

  lemma RenamedIsGood(d: string, g: Graph, e: string, h: Graph)
    requires GoodGraph(g) && StringsDeduped(d, g, e, h)
    ensures GoodGraph(h)
  {
    forall id | 0 <= id < |h|
      ensures GoodType(h[id], |h|) && h[id].Kind() == g[id].Kind()
    {
      assert GoodType(g[id], |g|);
      if id > 0 {
        RenamedSlots(d, g[id], e, h[id]);
      }
    }
  }

  lemma RenamedSpelling(d: string, g: Graph, e: string, h: Graph)
    requires GoodGraph(g) && StringsDeduped(d, g, e, h)
    ensures SameSpelling(d, g, e, h)
  {
    forall id | 0 <= id < |g|
      ensures Children(g[id]) == Children(h[id]) && Spell(d, Shell(g[id])) == Spell(e, Shell(h[id]))
    {
      assert GoodType(g[id], |g|);
      if id > 0 {
        RenamedSlots(d, g[id], e, h[id]);
        SpellShell(d, g[id], e, h[id]);
      }
    }
  }

  lemma RenamedSpelled(d: string, g: Graph, e: string, h: Graph) returns (ss: seq<string>)
    requires GoodGraph(g) && StringsDeduped(d, g, e, h)
    ensures e == Blob(ss) && Spelled(d, g, ss, h)
  {
    ss :| OnlyReferenced(d, g, e, ss) && AtStarts(ss, h);
    RenamedIsGood(d, g, e, h);
    RenamedSpelling(d, g, e, h);
    forall id | 0 <= id < |g|
      ensures g[id].info == h[id].info && g[id].sz == h[id].sz
    {
      if id > 0 {
        UnnamedChildren(g[id], h[id]);
      }
    }
  }

  /** The same kinds and references. */
  ghost predicate SameLinks(g: Graph, h: Graph) {
    |g| == |h| && forall x :: 0 <= x < |g| ==> Children(g[x]) == Children(h[x]) && g[x].Kind() == h[x].Kind()
  }

  lemma RenamedLinks(d: string, g: Graph, e: string, h: Graph)
    requires GoodGraph(g) && StringsDeduped(d, g, e, h)
    ensures SameLinks(g, h)
  {
    forall id | 0 <= id < |g|
      ensures Children(g[id]) == Children(h[id]) && g[id].Kind() == h[id].Kind()
    {
      assert GoodType(g[id], |g|);
      if id > 0 {
        RenamedSlots(d, g[id], e, h[id]);
      }
    }
  }

  lemma LinkedRanks(g: Graph, h: Graph)
    requires SameLinks(g, h)
    ensures HasRanks(g) ==> HasRanks(h)
    ensures NoVarRefs(g) ==> NoVarRefs(h)
  {
    if HasRanks(g) {
      var rank :| CyclesAreComposite(g, rank);
      forall x | 0 <= x < |h| && IsRedirected(h[x].Kind())
        ensures LowRefs(h, rank, x, 0)
      {
        assert LowRefs(g, rank, x, 0);
      }
      assert CyclesAreComposite(h, rank);
    }
  }

  // ---------------------------------------------------------------- the result

  /** Type `y` of the new file means what type `x` of the old one did, names included: both unfold to
      the same type tree, to any depth. */
  ghost predicate SameMeaning(d: string, g: Graph, x: nat, e: string, f: Graph, y: nat) {
    forall depth: nat {:trigger Unfold(g, x, depth)} {:trigger Unfold(f, y, depth)} ::
      Spelling(e, Unfold(f, y, depth)) == Spelling(d, Unfold(g, x, depth))
  }

  /** Every old type has a new ID that means the same, and the new IDs are dense. */
  ghost predicate MeaningKept(d: string, g: Graph, e: string, f: Graph, newId: seq<nat>) {
    && |newId| == |g| && 0 < |f| <= |g| && newId[0] == 0
    && (forall x :: 0 <= x < |g| ==> newId[x] < |f| && SameMeaning(d, g, x, e, f, newId[x]))
    && (forall y :: 0 <= y < |f| ==> y in newId)
  }

  lemma DedupKeepsMeaning(d: string, g: Graph, e: string, h: Graph, f: Graph, newId: seq<nat>)
    requires SameSpelling(d, g, e, h) && Deduplicated(h, f, newId)
    ensures MeaningKept(d, g, e, f, newId)
  {
    forall x | 0 <= x < |g|
      ensures SameMeaning(d, g, x, e, f, newId[x])
    {
      assert Same(f, newId[x], h, x);
      forall depth: nat
        ensures Spelling(e, Unfold(f, newId[x], depth)) == Spelling(d, Unfold(g, x, depth))
      {
        SpellingSame(d, g, e, h, x, depth);
        assert Unfold(f, newId[x], depth) == Unfold(h, x, depth);
      }
    }
  }

  class Btf {
    var strs: string
    var types: Graph

    ghost predicate Valid()
      reads this
    {
      GoodSection(strs) && GoodGraph(types) && |types| <= MAX_NR_TYPES
    }

    constructor (d: string, g: Graph)
      requires GoodSection(d) && GoodGraph(g) && |g| <= MAX_NR_TYPES
      ensures Valid() && strs == d && types == g
    {
      strs, types := d, g;
    }

    /** `btf__dedup`. It always succeeds on what a C compiler produces: references to strings are to
        their starts, and types form cycles only through structs and unions. Without either it fails. */
    method Dedup() returns (err: int, ghost newId: seq<nat>, ghost canon: seq<nat>)
      requires Valid()
      modifies this
      ensures err == 0 ==> MeaningKept(old(strs), old(types), strs, types, newId)
      ensures err == 0 ==> Folds(canon, newId) && InOrder(canon, newId)
      ensures err == 0 ==> OneOfTwinsSpelled(old(strs), old(types), canon)
      ensures err == 0 ==> CopiesMergedSpelled(old(strs), old(types), newId)
      ensures err == 0 ==> |strs| <= |old(strs)| && exists ss :: OnlyReferenced(old(strs), old(types), strs, ss)
      ensures err == 0 ==> forall y, z :: 0 < y < z < |types| && IsExact(types[y].Kind()) && types[y].Kind() != FWD ==>
        types[y] != types[z]
      ensures err == 0 ==> GoodNames(old(strs), old(types)) && HasRanks(old(types))
      ensures GoodNames(old(strs), old(types)) && HasRanks(old(types)) && NoVarRefs(old(types)) ==> err == 0
    {
      newId, canon := [], [];
      ghost var d, g := strs, types;
      err, strs, types := DedupStrings(strs, types);
      if err != 0 {
        return;
      }
      ghost var h := types;
      RenamedIsGood(d, g, strs, h);
      RenamedSpelling(d, g, strs, h);
      RenamedLinks(d, g, strs, h);
      LinkedRanks(g, h);
      LinkedRanks(h, g);
      var dedup := new Dedup(types);
      err, newId, canon := dedup.Run();
      types := dedup.types;
      if err == 0 {
        DedupKeepsMeaning(d, g, strs, h, types, newId);
        ghost var ss := RenamedSpelled(d, g, strs, h);
        MergedSpelled(d, g, ss, h, newId, canon);
      }
    }
  }
}
