/** `btf__dedup` from its second pass on, with `dont_resolve_fwds` set: the type records, the
    canonical and hypothetical maps and the candidate table are updated in place. */
module BtfDedup {
  import opened BtfTypes
  import opened BtfCanon
  import opened BtfTable
  import opened BtfCopies
  import opened BtfRefs
  import opened BtfFounded
  import opened BtfRenumber
  import opened Lists

  const EINVAL: int := -22
  const ELOOP: int := -40

  /** The canonical map before the first pass. */
  ghost predicate Fresh(g: Graph, map_: seq<nat>) {
    |g| == |map_| && forall x :: 0 < x < |g| ==>
      map_[x] == if g[x].Kind() == VAR || g[x].Kind() == DATASEC then x else UNPROCESSED
  }

  lemma FreshIsGood(g: Graph, map_: seq<nat>)
    requires GoodGraph(g) && |g| <= MAX_NR_TYPES && Fresh(g, map_) && map_[0] == 0
    ensures GoodMap(g, map_) && GoodTable(g, map_, [])
  {
    forall x: nat | x < |map_| && IsMapped(map_[x])
      ensures GoodEntry(g, map_, x)
    {
      SameSelf(g, x);
    }
  }

  class Dedup {
    var types: Graph
    var map_: seq<nat>
    var hypotMap: seq<nat>
    var hypotList: seq<nat>
    var table: seq<Cand>

    ghost predicate Valid()
      reads this
    {
      && GoodGraph(types) && GoodMap(types, map_) && GoodTable(types, map_, table)
      && GoodHypot(|types|, hypotMap, hypotList)
    }

    /** `btf_dedup_new`: void, variables and sections are canonical at once. */
    constructor (g: Graph)
      requires GoodGraph(g) && |g| <= MAX_NR_TYPES
      ensures Valid() && types == g && table == [] && Fresh(g, map_)
    {
      types := g;
      map_ := seq(|g|, i requires 0 <= i < |g| =>
        if i == 0 || g[i].Kind() == VAR || g[i].Kind() == DATASEC then i else UNPROCESSED);
      hypotMap := seq(|g|, i => UNPROCESSED);
      hypotList := [];
      table := [];
      new;
      FreshIsGood(types, map_);
    }

    // -------------------------------------------------------------- small steps

    /** `resolve_type_id`. */
    method Resolve(id: nat) returns (r: nat)
      requires Flat(map_) && id < |map_|
      ensures r == Root(map_, id) && r < |map_|
    {
      r := id;
      while IsMapped(map_[r]) && map_[r] != r
        invariant r < |map_| && (r == id || r == Root(map_, id))
        decreases if IsMapped(map_[r]) && map_[r] != r then 1 else 0
      {
        r := map_[r];
      }
    }

    /** `resolve_type_id` on the type graph: the canonical type found means the same. */
    method Canon(id: nat) returns (r: nat)
      requires GoodMap(types, map_) && id < |types|
      ensures r == Root(map_, id) && r < |types| && Root(map_, r) == r
      ensures Same(types, id, types, r) && (IsMapped(map_[id]) ==> map_[r] == r)
    {
      GoodMapIsFlat(types, map_);
      RootIs(types, map_, id);
      r := Resolve(id);
    }

    method ClearHypotMap()
      requires GoodHypot(|types|, hypotMap, hypotList)
      modifies this`hypotMap, this`hypotList
      ensures GoodHypot(|types|, hypotMap, hypotList) && hypotList == []
    {
      var i := 0;
      while i < |hypotList|
        invariant 0 <= i <= |hypotList| && |hypotMap| == |types|
        invariant hypotList == old(hypotList)
        invariant forall x :: 0 <= x < |hypotMap| && x !in hypotList[i..] ==> hypotMap[x] == UNPROCESSED
      {
        assert hypotList[i..] == [hypotList[i]] + hypotList[i + 1..];
        hypotMap := hypotMap[hypotList[i] := UNPROCESSED];
        i := i + 1;
      }
      hypotList := [];
    }

    // -------------------------------------------------------------- the graph check

    /** `btf_dedup_is_equiv`: 1, 0, or a negative error. On 1 the candidate is related to the
        canonical type, and every hypothesis added on the way has been checked. The answer is 1 whenever
        some function `phi` agrees with the hypotheses and takes the canonical type to the candidate. */
    method IsEquiv(candId: nat, canonId: nat, ghost phi: map<nat, nat>) returns (r: int)
      requires GoodGraph(types) && GoodMap(types, map_) && GoodHypot(|types|, hypotMap, hypotList)
      requires candId < |types| && canonId < |types|
      modifies this`hypotMap, this`hypotList
      ensures GoodHypot(|types|, hypotMap, hypotList)
      ensures Extends(old(hypotMap), old(hypotList), hypotMap, hypotList)
      ensures r > 0 ==> Related(map_, hypotMap, candId, canonId)
      ensures r > 0 ==> JustifiedFrom(types, map_, hypotMap, hypotList, |old(hypotList)|)
      ensures NoVarRefs(types) && !IsData(types[candId].Kind()) ==> r >= 0
      ensures Guides(types, map_, old(hypotMap), old(hypotList), phi) && Paired(map_, phi, candId, canonId) ==>
        r > 0 && Guides(types, map_, hypotMap, hypotList, phi)
      decreases |types| - |hypotList|, 0
    {
      var candRoot := Canon(candId);
      var canonRoot := Canon(canonId);
      if candRoot == canonRoot {
        return 1;
      }
      GuideStarts(types, map_, hypotMap, hypotList, phi, candId, canonId);
      if IsMapped(hypotMap[canonId]) {
        return if hypotMap[canonId] == candId then 1 else 0;
      }
      HypotAdded(|types|, hypotMap, hypotList, canonId, candId);
      hypotList := hypotList + [canonId];
      hypotMap := hypotMap[canonId := candId];
      AtMost(hypotList, |types|);
      r := CheckPair(candId, canonId, phi);
      ghost var hm1, hl1 := old(hypotMap)[canonId := candId], old(hypotList) + [canonId];
      ExtendsTrans(|types|, old(hypotMap), old(hypotList), hm1, hl1, hypotMap, hypotList);
      if r > 0 {
        assert hypotList[..|hl1|][|old(hypotList)|] == canonId;
        JustifiedFromOne(types, map_, hypotMap, hypotList, |old(hypotList)|);
      }
    }

    /** The part of `btf_dedup_is_equiv` after the hypothesis is recorded. */
    method CheckPair(candId: nat, canonId: nat, ghost phi: map<nat, nat>) returns (r: int)
      requires GoodGraph(types) && GoodMap(types, map_) && GoodHypot(|types|, hypotMap, hypotList)
      requires candId < |types| && canonId < |types| && |hypotList| <= |types|
      requires canonId in hypotList && hypotMap[canonId] == candId && candId != canonId
      modifies this`hypotMap, this`hypotList
      ensures GoodHypot(|types|, hypotMap, hypotList)
      ensures Extends(old(hypotMap), old(hypotList), hypotMap, hypotList)
      ensures hypotMap[canonId] == candId
      ensures r > 0 ==> Justified(types, map_, hypotMap, canonId)
      ensures r > 0 ==> JustifiedFrom(types, map_, hypotMap, hypotList, |old(hypotList)|)
      ensures NoVarRefs(types) && !IsData(types[candId].Kind()) ==> r >= 0
      ensures GuidesTo(types, map_, old(hypotMap), old(hypotList), phi, candId, canonId) ==>
        r > 0 && Guides(types, map_, hypotMap, hypotList, phi)
      decreases |types| - |hypotList|, 2
    {
      var cand, canon := types[candId], types[canonId];
      assert GoodType(cand, |types|) && GoodType(canon, |types|);
      if GuidesTo(types, map_, hypotMap, hypotList, phi, candId, canonId) {
        assert EmbedsAt(types, map_, phi, canonId);
        AlikeFields(cand, canon);
      }
      if cand.name != canon.name || cand.Kind() != canon.Kind() {
        return 0;
      }
      var k := cand.Kind();
      if k == VOID || k == VAR || k == DATASEC {
        return EINVAL;
      }
      if !ShallowEqual(cand, canon) {
        return 0;
      }
      AlikeMeans(cand, canon);
      if k == INT || k == ENUM || k == FWD {
        return 1;
      }
      ghost var hm0, hl0 := hypotMap, hypotList;
      r := CheckChildren(candId, canonId, phi);
      ExtendsKeeps(hm0, hl0, hypotMap, hypotList, canonId);
      if r > 0 {
        AllChildrenRelated(types, map_, hypotMap, candId, canonId);
      }
    }

    method CheckChildren(candId: nat, canonId: nat, ghost phi: map<nat, nat>) returns (r: int)
      requires GoodGraph(types) && GoodMap(types, map_) && GoodHypot(|types|, hypotMap, hypotList)
      requires candId < |types| && canonId < |types| && |hypotList| <= |types|
      requires |Children(types[candId])| == |Children(types[canonId])|
      requires types[candId].Kind() == types[canonId].Kind()
      requires canonId in hypotList
      modifies this`hypotMap, this`hypotList
      ensures GoodHypot(|types|, hypotMap, hypotList)
      ensures Extends(old(hypotMap), old(hypotList), hypotMap, hypotList)
      ensures r > 0 ==> ChildrenRelated(types, map_, hypotMap, candId, canonId, |Children(types[candId])|)
      ensures r > 0 ==> JustifiedFrom(types, map_, hypotMap, hypotList, |old(hypotList)|)
      ensures NoVarRefs(types) && !IsData(types[candId].Kind()) ==> r >= 0
      ensures GuidesTo(types, map_, old(hypotMap), old(hypotList), phi, candId, canonId) ==>
        r > 0 && Guides(types, map_, hypotMap, hypotList, phi)
      decreases |types| - |hypotList|, 1
    {
      var cands, canons := Children(types[candId]), Children(types[canonId]);
      assert GoodType(types[candId], |types|) && GoodType(types[canonId], |types|);
      var i := 0;
      while i < |cands|
        invariant 0 <= i <= |cands|
        invariant Checked(types, map_, old(hypotMap), old(hypotList), hypotMap, hypotList, candId, canonId, i)
        invariant GuidesTo(types, map_, old(hypotMap), old(hypotList), phi, candId, canonId) ==>
          Guides(types, map_, hypotMap, hypotList, phi)
      {
        ghost var hm0, hl0 := hypotMap, hypotList;
        var j := Visit(types[candId].Kind(), i);
        if GuidesTo(types, map_, old(hypotMap), old(hypotList), phi, candId, canonId) {
          assert EmbedsAt(types, map_, phi, canonId);
        }
        var eq := IsEquiv(cands[j], canons[j], phi);
        if eq <= 0 {
          ExtendsTrans(|types|, old(hypotMap), old(hypotList), hm0, hl0, hypotMap, hypotList);
          return eq;
        }
        CheckedOne(types, map_, old(hypotMap), old(hypotList), hm0, hl0, hypotMap, hypotList, candId, canonId, i);
        i := i + 1;
      }
      return 1;
    }

    // -------------------------------------------------------------- candidates

    /** `for_each_dedup_cand`. */
    method Candidates(h: int) returns (c: seq<nat>)
      ensures ChainOf(table, h, c)
    {
      c := [];
      var i := 0;
      while i < |table|
        invariant 0 <= i <= |table|
        invariant ChainOf(table[..i], h, c)
      {
        assert table[..i + 1] == table[..i] + [table[i]];
        if table[i].hash == h {
          c := c + [table[i].id];
        }
        i := i + 1;
      }
      assert table[..i] == table;
    }

    /** The search of `btf_dedup_prim_type` and `btf_dedup_ref_type`: the first equal candidate, or
        the type itself. */
    method FindCanonical(id: nat) returns (newId: nat)
      requires GoodGraph(types) && GoodTable(types, map_, table)
      requires 0 < id < |types| && map_[id] != id && IsExact(types[id].Kind()) && GoodSlots(types[id])
      ensures Chosen(types, map_, table, id, newId)
    {
      var c := Candidates(Hash(types[id]));
      CandidateFacts(types, map_, table, id, c);
      newId := FirstEqual(id, c);
    }

    method FirstEqual(id: nat, c: seq<nat>) returns (newId: nat)
      requires id < |types| && GoodSlots(types[id])
      requires forall i :: 0 <= i < |c| ==>
        c[i] < |types| && GoodSlots(types[c[i]])
        && (EqualForDedup(types[id], types[c[i]]) <==> types[id] == types[c[i]])
      ensures if newId == id then id in c || forall i :: 0 <= i < |c| ==> types[c[i]] != types[id]
              else newId in c && types[newId] == types[id]
    {
      newId := id;
      var i := 0;
      while i < |c|
        invariant 0 <= i <= |c|
        invariant forall j :: 0 <= j < i ==> types[c[j]] != types[id]
      {
        if EqualForDedup(types[id], types[c[i]]) {
          return c[i];
        }
        i := i + 1;
      }
    }

    // -------------------------------------------------------------- pass 2: primitive types

    /** `btf_dedup_prim_type`. */
    method PrimType(id: nat)
      requires Valid() && 0 < id < |types|
      requires types[id].Kind() in {INT, ENUM, FWD} ==> !IsMapped(map_[id])
      modifies this`map_, this`table
      ensures Valid() && Grown(old(map_), map_)
      ensures if types[id].Kind() in {INT, ENUM, FWD} then IsMapped(map_[id]) else map_ == old(map_)
      ensures forall x :: 0 <= x < |map_| && x != id ==> map_[x] == old(map_)[x]
    {
      if types[id].Kind() in {INT, ENUM, FWD} {
        assert GoodType(types[id], |types|);
        var newId := FindCanonical(id);
        SettleOne(types, map_, table, id, newId,
                  if newId == id then [Cand(Hash(types[id]), id)] + table else table);
        map_ := map_[id := newId];
        if id == newId {
          table := [Cand(Hash(types[id]), id)] + table;
        }
      }
    }

    // -------------------------------------------------------------- pass 3: structs and unions

    /** `btf_dedup_merge_hypot_map`. The kinds of a pair agree, so no FWD is resolved here. */
    method MergeHypotMap()
      requires Valid() && PairsSame(types, hypotMap, hypotList)
      modifies this`map_
      ensures Valid() && Grown(old(map_), map_) && OnlyMerged(types, old(map_), map_)
      ensures MergedTo(types, old(map_), hypotMap, hypotList, map_, |hypotList|)
    {
      var i := 0;
      while i < |hypotList|
        invariant 0 <= i <= |hypotList| && Valid() && Grown(old(map_), map_)
        invariant OnlyMerged(types, old(map_), map_)
        invariant MergedTo(types, old(map_), hypotMap, hypotList, map_, i)
      {
        ghost var m := map_;
        MergePair(hypotList[i], hypotMap[hypotList[i]]);
        OnlyMergedTrans(types, old(map_), m, map_);
        MergedNext(types, old(map_), hypotMap, hypotList, m, map_, i);
        i := i + 1;
      }
    }

    /** One pair: the candidate's type is mapped to the canonical type if that is settled. */
    method MergePair(candTypeId: nat, targTypeId: nat)
      requires Valid() && candTypeId < |types| && targTypeId < |types| && Same(types, targTypeId, types, candTypeId)
      modifies this`map_
      ensures Valid() && Grown(old(map_), map_) && OnlyMerged(types, old(map_), map_)
      ensures IsComposite(types[candTypeId].Kind()) && IsMapped(old(map_)[candTypeId]) ==> IsMapped(map_[targTypeId])
    {
      var t := Canon(targTypeId);
      var c := Canon(candTypeId);
      RootsOfPair(types, map_, targTypeId, candTypeId);
      SameShell(types, targTypeId, candTypeId);
      if IsComposite(types[t].Kind()) && IsMapped(map_[c]) && !IsMapped(map_[t]) {
        SettleComposite(types, map_, table, t, c);
        map_ := map_[t := c];
      }
    }

    /** One candidate of `btf_dedup_struct_type`: check it, and merge what the check found. The check
        succeeds exactly on a copy. */
    method TryCandidate(id: nat, cand: nat) returns (eq: int)
      requires Valid() && 0 < id < |types| && cand < |types| && !IsMapped(map_[id]) && map_[cand] == cand
      modifies this`map_, this`hypotMap, this`hypotList
      ensures Valid() && Searched(types, old(map_), map_, id)
      ensures eq <= 0 ==> map_ == old(map_)
      ensures eq > 0 ==> Same(types, id, types, cand) && CopyOf(types, old(map_), id, cand)
      ensures CopyOf(types, old(map_), id, cand) ==> eq > 0
      ensures NoVarRefs(types) && !IsData(types[id].Kind()) ==> eq >= 0
    {
      ClearHypotMap();
      ghost var phi := Function(types, map_, id, cand);
      eq := IsEquiv(id, cand, phi);
      if eq > 0 {
        RelatedMeansSame(types, map_, hypotMap, hypotList, id, cand);
        JustifiedPairsSame(types, map_, hypotMap, hypotList);
        RecordedIsCopy(types, map_, hypotMap, hypotList, id, cand);
        MergeHypotMap();
      }
    }

    /** The comparison of the shells comes first. */
    method TryAlike(id: nat, cand: nat) returns (eq: int)
      requires Valid() && 0 < id < |types| && cand < |types| && !IsMapped(map_[id]) && map_[cand] == cand
      requires IsComposite(types[id].Kind()) && GoodSlots(types[id]) && GoodSlots(types[cand])
      modifies this`map_, this`hypotMap, this`hypotList
      ensures Valid() && Searched(types, old(map_), map_, id)
      ensures eq <= 0 ==> map_ == old(map_)
      ensures eq == 0 ==> !CopyOf(types, map_, id, cand)
      ensures eq > 0 ==> Same(types, id, types, cand) && CopyOf(types, old(map_), id, cand)
      ensures NoVarRefs(types) ==> eq >= 0
    {
      CopyIsShallow(types, map_, id, cand);
      if !ShallowEqualStruct(types[id], types[cand]) {
        return 0;
      }
      eq := TryCandidate(id, cand);
    }

    /** The search of `btf_dedup_struct_type`: the first candidate that is a copy, or the type itself. */
    method FindStruct(id: nat) returns (err: int, newId: nat)
      requires Valid() && 0 < id < |types| && !IsMapped(map_[id]) && IsComposite(types[id].Kind())
      modifies this`map_, this`hypotMap, this`hypotList
      ensures Valid() && Searched(types, old(map_), map_, id)
      ensures newId < |types| && (newId == id || map_[newId] == newId) && Same(types, id, types, newId)
      ensures err == 0 ==> (newId != id <==> HasCopy(types, old(map_), id))
      ensures err != 0 ==> map_ == old(map_)
      ensures NoVarRefs(types) ==> err == 0
    {
      assert GoodType(types[id], |types|);
      newId := id;
      var c := Candidates(Hash(types[id]));
      CompositeFacts(types, map_, table, id, c);
      SameSelf(types, id);
      ghost var m := map_;
      var i := 0;
      while i < |c|
        invariant 0 <= i <= |c| && Valid() && map_ == m && NoneIsCopy(types, m, id, c, i)
      {
        var eq := TryAlike(id, c[i]);
        if eq < 0 {
          return eq, id;
        }
        if eq > 0 {
          assert CopyOf(types, m, id, c[i]);
          return 0, c[i];
        }
        NoneIsCopyNext(types, m, id, c, i);
        i := i + 1;
      }
      NoCandidate(types, map_, table, id, c);
      return 0, id;
    }

    /** `btf_dedup_struct_type`: 0, or a negative error. A type stays canonical exactly when it is a copy of
        no canonical one. */
    method StructType(id: nat) returns (err: int)
      requires Valid() && 0 < id < |types|
      modifies this`map_, this`table, this`hypotMap, this`hypotList
      ensures Valid() && Grown(old(map_), map_)
      ensures err == 0 && IsComposite(types[id].Kind()) ==> IsMapped(map_[id])
      ensures err == 0 && IsComposite(types[id].Kind()) && !IsMapped(old(map_)[id]) ==>
        (map_[id] != id <==> HasCopy(types, old(map_), id))
      ensures OneOfTwins(types, old(map_)) ==> OneOfTwins(types, map_)
      ensures OnlyComposite(types, old(map_), map_)
      ensures NoVarRefs(types) ==> err == 0
    {
      if IsMapped(map_[id]) || !IsComposite(types[id].Kind()) {
        return 0;
      }
      var newId;
      err, newId := FindStruct(id);
      if err != 0 {
        return;
      }
      ghost var m := map_;
      SettleStruct(id, newId);
      if OneOfTwins(types, old(map_)) {
        SettledTwins(types, old(map_), m, id, newId);
      }
    }

    method SettleStruct(id: nat, newId: nat)
      requires Valid() && 0 < id < |types| && newId < |types| && IsComposite(types[id].Kind()) && map_[id] != id
      requires (newId == id || map_[newId] == newId) && Same(types, id, types, newId)
      modifies this`map_, this`table
      ensures Valid() && map_ == old(map_)[id := newId]
    {
      assert GoodType(types[id], |types|);
      if id == newId {
        SettleNewComposite(types, map_, table, id);
      } else {
        SettleComposite(types, map_, table, id, newId);
      }
      map_ := map_[id := newId];
      if id == newId {
        table := [Cand(Hash(types[id]), id)] + table;
      }
    }

    // -------------------------------------------------------------- pass 4: reference types

    /** `btf_dedup_ref_type`: the canonical ID of `id`, or a negative error. It cannot fail when `id`
        is ready under some ranking. */
    method RefType(id: nat, ghost rank: seq<nat>, ghost o: Graph) returns (r: int)
      requires Settled(types, map_, table) && id < |types|
      modifies this`types, this`map_, this`table
      ensures Advanced(old(types), old(map_), types, map_, table)
      ensures r >= 0 ==> r < |types| && map_[r] == r && IsMapped(map_[id]) && Same(types, id, types, r)
      ensures Ready(old(types), old(map_), rank, id) ==> r >= 0 && SameProgress(old(map_), map_)
      ensures r >= 0 && Grounded(o, old(types), old(map_)) ==> Grounded(o, types, map_)
      decreases Untouched(map_), 1
    {
      if map_[id] == IN_PROGRESS {
        return ELOOP;
      }
      if IsMapped(map_[id]) {
        r := Canon(id);
        return;
      }
      r := ResolveRef(id, rank, o);
    }

    /** `btf_dedup_ref_type` for a type no pass has touched. */
    method ResolveRef(id: nat, ghost rank: seq<nat>, ghost o: Graph) returns (r: int)
      requires Settled(types, map_, table) && 0 < id < |types| && map_[id] == UNPROCESSED
      modifies this`types, this`map_, this`table
      ensures Advanced(old(types), old(map_), types, map_, table)
      ensures r >= 0 ==> r < |types| && map_[r] == r && IsMapped(map_[id]) && Same(types, id, types, r)
      ensures Ready(old(types), old(map_), rank, id) ==> r >= 0 && SameProgress(old(map_), map_)
      ensures r >= 0 && Grounded(o, old(types), old(map_)) ==> Grounded(o, types, map_)
      decreases Untouched(map_), 0
    {
      StartOne(types, map_, table, id);
      Started(o, types, map_, rank, id);
      map_ := map_[id := IN_PROGRESS];
      ghost var g1, m1, t1 := types, map_, table;
      if !IsRedirected(types[id].Kind()) {
        return EINVAL;
      }
      r := RedirectChildren(id, rank, o);
      AdvancedThenExcept(old(types), old(map_), g1, m1, t1, types, map_, table, id);
      if r < 0 {
        StoppedIsAdvanced(old(types), old(map_), types, map_, table, id);
        return;
      }
      ghost var m2, t2 := map_, table;
      r := FinishRef(id);
      FinishedIsAdvanced(o, old(types), old(map_), types, m2, t2, id, r, table);
    }

    /** The end of `btf_dedup_ref_type`: `id` becomes canonical or is mapped to its equal. */
    method FinishRef(id: nat) returns (r: nat)
      requires Settled(types, map_, table) && 0 < id < |types| && map_[id] == IN_PROGRESS
      requires IsRedirected(types[id].Kind())
      requires forall j :: 0 <= j < |Children(types[id])| ==>
        Children(types[id])[j] < |map_| && map_[Children(types[id])[j]] == Children(types[id])[j]
      modifies this`map_, this`table
      ensures Settled(types, map_, table) && Untouched(map_) <= Untouched(old(map_))
      ensures r < |types| && map_ == old(map_)[id := r] && map_[r] == r && Same(types, id, types, r)
    {
      assert GoodType(types[id], |types|);
      r := FindCanonical(id);
      FinishOne(types, map_, table, id, r,
                if r == id then [Cand(Hash(types[id]), id)] + table else table);
      map_ := map_[id := r];
      if id == r {
        table := [Cand(Hash(types[id]), id)] + table;
      }
    }

    /** Resolve the references of the type in progress, in order, and write them back. */
    method RedirectChildren(id: nat, ghost rank: seq<nat>, ghost o: Graph) returns (r: int)
      requires Settled(types, map_, table) && 0 < id < |types| && map_[id] == IN_PROGRESS
      modifies this`types, this`map_, this`table
      ensures AdvancedExcept(old(types), old(map_), types, map_, table, id)
      ensures r >= 0 ==> forall j :: 0 <= j < |Children(types[id])| ==>
        Children(types[id])[j] < |map_| && map_[Children(types[id])[j]] == Children(types[id])[j]
      ensures KidsReady(old(types), old(map_), rank, id, 0) ==> r >= 0 && SameProgress(old(map_), map_)
      ensures r >= 0 && GroundedTo(o, old(types), old(map_), id, 0) ==>
        GroundedTo(o, types, map_, id, |Children(o[id])|)
      decreases Untouched(map_), 3
    {
      var n := |Children(types[id])|;
      var j := 0;
      while j < n
        invariant 0 <= j <= n && id < |types| && |Children(types[id])| == n
        invariant AdvancedExcept(old(types), old(map_), types, map_, table, id)
        invariant forall i :: 0 <= i < j ==>
          Children(types[id])[i] < |map_| && map_[Children(types[id])[i]] == Children(types[id])[i]
        invariant KidsReady(old(types), old(map_), rank, id, 0) ==>
          KidsReady(types, map_, rank, id, j) && SameProgress(old(map_), map_)
        invariant GroundedTo(o, old(types), old(map_), id, 0) ==> GroundedTo(o, types, map_, id, j)
      {
        ghost var g1, m1, t1 := types, map_, table;
        r := RedirectChild(id, j, rank, o);
        AdvancedThenExcept(old(types), old(map_), g1, m1, t1, types, map_, table, id);
        if r < 0 {
          return;
        }
        j := j + 1;
      }
      return 0;
    }

    method RedirectChild(id: nat, j: nat, ghost rank: seq<nat>, ghost o: Graph) returns (r: int)
      requires Settled(types, map_, table) && 0 < id < |types| && map_[id] == IN_PROGRESS
      requires j < |Children(types[id])|
      modifies this`types, this`map_, this`table
      ensures AdvancedExcept(old(types), old(map_), types, map_, table, id)
      ensures forall x :: 0 <= x < |map_| && old(map_)[x] == x ==> map_[x] == x
      ensures r >= 0 ==> |Children(types[id])| == |Children(old(types)[id])|
      ensures r >= 0 ==> Children(types[id])[j] < |map_| && map_[Children(types[id])[j]] == Children(types[id])[j]
      ensures r >= 0 ==>
        forall i :: 0 <= i < |Children(types[id])| && i != j ==> Children(types[id])[i] == Children(old(types)[id])[i]
      ensures KidsReady(old(types), old(map_), rank, id, j) ==>
        r >= 0 && KidsReady(types, map_, rank, id, j + 1) && SameProgress(old(map_), map_)
      ensures r >= 0 && GroundedTo(o, old(types), old(map_), id, j) ==> GroundedTo(o, types, map_, id, j + 1)
      decreases Untouched(map_), 2
    {
      ghost var g0, m0 := types, map_;
      assert GoodType(types[id], |types|);
      KidIsReady(types, map_, rank, id, j);
      r := RefType(Children(types[id])[j], rank, o);
      if r >= 0 {
        ghost var h := types;
        RedirectAdvanced(g0, m0, h, map_, table, id, j, r);
        types := types[id := SetChild(types[id], j, r)];
        NextIsReady(o, g0, m0, h, map_, types, rank, id, j, r);
      } else {
        AdvancedIsExcept(g0, m0, types, map_, table, id);
      }
    }

    // -------------------------------------------------------------- pass 5: compaction

    /** `btf_dedup_compact_types`: canonical types slide down over the others; `hypot_map` takes the
        new numbers. */
    method CompactTypes()
      requires GoodGraph(types) && GoodMap(types, map_) && |hypotMap| == |types|
      modifies this`types, this`hypotMap
      ensures Numbered(old(types), map_, hypotMap, types, |old(types)|)
      ensures |types| == |Canonical(map_, |old(types)|)| + 1
    {
      ghost var g := types;
      hypotMap := Unnumbered(|types|);
      var next := CompactAll();
      TruncateNumbered(g, map_, hypotMap, types);
      types := types[..next];
    }

    method CompactAll() returns (next: nat)
      requires GoodGraph(types) && GoodMap(types, map_) && hypotMap == Unnumbered(|types|)
      modifies this`types, this`hypotMap
      ensures |types| == |old(types)| && Compacting(old(types), map_, hypotMap, types, next, |old(types)|)
    {
      ghost var g := types;
      next := 1;
      var i: nat := 1;
      CompactStart(g, map_);
      while i < |types|
        invariant 1 <= i <= |types|
        invariant Compacting(g, map_, hypotMap, types, next, i)
      {
        next := CompactOne(g, next, i);
        i := i + 1;
      }
    }

    method CompactOne(ghost g: Graph, next: nat, i: nat) returns (next': nat)
      requires 1 <= i < |types| && Compacting(g, map_, hypotMap, types, next, i)
      modifies this`types, this`hypotMap
      ensures |types| == |old(types)| && Compacting(g, map_, hypotMap, types, next', i + 1)
    {
      CompactNext(g, map_, hypotMap, types, next, i);
      next' := next;
      if map_[i] == i {
        types := types[next := types[i]];
        hypotMap := hypotMap[i := next];
        next' := next + 1;
      }
    }

    // -------------------------------------------------------------- pass 6: remapping

    /** `btf_dedup_remap_type`. */
    method RemapType(y: nat) returns (r: int)
      requires Flat(map_) && |hypotMap| == |map_| && y < |types|
      requires forall j :: 0 <= j < |Children(types[y])| ==> Children(types[y])[j] < |map_|
      modifies this`types
      ensures |types| == |old(types)|
      ensures forall x :: 0 <= x < |types| && x != y ==> types[x] == old(types)[x]
      ensures r >= 0 ==> RemappedType(map_, hypotMap, old(types)[y], types[y], |Children(old(types)[y])|)
      ensures (forall j :: 0 <= j < |Children(old(types)[y])| ==>
        IsMapped(hypotMap[Root(map_, Children(old(types)[y])[j])])) ==> r >= 0
    {
      ghost var t := types[y];
      var n, j := |Children(types[y])|, 0;
      while j < n
        invariant 0 <= j <= n == |Children(t)| && |types| == |old(types)|
        invariant forall x :: 0 <= x < |types| && x != y ==> types[x] == old(types)[x]
        invariant RemappedType(map_, hypotMap, t, types[y], j)
      {
        var c := Resolve(Children(types[y])[j]);
        if !IsMapped(hypotMap[c]) {
          return EINVAL;
        }
        SetChildIs(types[y], j, hypotMap[c]);
        types := types[y := SetChild(types[y], j, hypotMap[c])];
        j := j + 1;
      }
      return 0;
    }

    // -------------------------------------------------------------- the passes

    method PrimTypes()
      requires Valid() && Fresh(types, map_)
      modifies this`map_, this`table
      ensures Valid() && PrimsMapped(types, map_)
    {
      var i := 1;
      while i < |types|
        invariant 1 <= i <= |types| && Valid()
        invariant forall x :: 0 < x < i ==> (types[x].Kind() in {INT, ENUM, FWD, VAR, DATASEC} <==> IsMapped(map_[x]))
        invariant forall x :: i <= x < |types| ==> (types[x].Kind() in {VAR, DATASEC} <==> IsMapped(map_[x]))
        invariant forall x :: 0 < x < |types| ==> map_[x] != IN_PROGRESS
      {
        PrimType(i);
        i := i + 1;
      }
    }

    method StructTypes() returns (err: int)
      requires Valid()
      modifies this`map_, this`table, this`hypotMap, this`hypotList
      ensures Valid() && OnlyComposite(types, old(map_), map_)
      ensures err == 0 ==> CompositesMapped(types, map_, |types|)
      ensures OneOfTwins(types, old(map_)) ==> OneOfTwins(types, map_)
      ensures NoVarRefs(types) ==> err == 0
    {
      ghost var m0 := map_;
      var i := 1;
      while i < |types|
        invariant 1 <= i <= |types| && Valid() && OnlyComposite(types, m0, map_)
        invariant CompositesMapped(types, map_, i)
        invariant OneOfTwins(types, m0) ==> OneOfTwins(types, map_)
      {
        ghost var m := map_;
        err := StructType(i);
        OnlyCompositeTrans(types, m0, m, map_);
        if err != 0 {
          return;
        }
        CompositesMappedNext(types, m, map_, i);
        i := i + 1;
      }
      return 0;
    }

    method RefTypes(ghost rank: seq<nat>, ghost o: Graph) returns (err: int)
      requires Settled(types, map_, table)
      modifies this`types, this`map_, this`table
      ensures Settled(types, map_, table) && Equivalent(old(types), types)
      ensures err == 0 ==> AllMapped(map_)
      ensures AllReady(old(types), old(map_), rank) ==> err == 0
      ensures err == 0 && Grounded(o, old(types), old(map_)) ==> HasRanks(o)
      ensures MappedStay(old(map_), map_)
    {
      ghost var p := Pass(types, map_, AllReady(types, map_, rank), Grounded(o, types, map_));
      var i: nat := 1;
      while i < |types|
        invariant 1 <= i <= |types| && Settled(types, map_, table) && Passed(p, rank, o, types, map_, i)
      {
        ghost var h, m := types, map_;
        err := RefTypeAt(i, rank, o);
        if err != 0 {
          PassStopped(p, rank, o, h, m, i, types, map_);
          return;
        }
        PassNext(p, rank, o, h, m, i, types, map_);
        i := i + 1;
      }
      if p.grounded {
        GroundedThenRanks(o, types, map_);
      }
      return 0;
    }

    method RefTypeAt(i: nat, ghost rank: seq<nat>, ghost o: Graph) returns (err: int)
      requires Settled(types, map_, table) && 0 < i < |types|
      modifies this`types, this`map_, this`table
      ensures Settled(types, map_, table) && Equivalent(old(types), types) && MappedStay(old(map_), map_)
      ensures err == 0 ==> IsMapped(map_[i])
      ensures AllReady(old(types), old(map_), rank) ==> err == 0 && AllReady(types, map_, rank)
      ensures err == 0 && Grounded(o, old(types), old(map_)) ==> Grounded(o, types, map_)
    {
      ghost var g0, m0 := types, map_;
      var r := RefType(i, rank, o);
      if AllReady(g0, m0, rank) {
        RankedStays(g0, m0, rank, types, map_);
      }
      err := if r < 0 then r else 0;
    }

    method RemapTypes() returns (err: int)
      requires Flat(map_) && |hypotMap| == |map_|
      requires forall y :: 0 <= y < |types| ==> ReferencesNumbered(map_, hypotMap, types[y])
      requires 0 < |types| && Children(types[0]) == []
      modifies this`types
      ensures err == 0 && |types| == |old(types)|
      ensures forall y :: 0 <= y < |types| ==>
        RemappedType(map_, hypotMap, old(types)[y], types[y], |Children(old(types)[y])|)
    {
      var y: nat := 1;
      while y < |types|
        invariant 1 <= y <= |types| == |old(types)|
        invariant forall x :: 0 <= x < y ==>
          RemappedType(map_, hypotMap, old(types)[x], types[x], |Children(old(types)[x])|)
        invariant forall x :: y <= x < |types| ==> types[x] == old(types)[x]
      {
        assert ReferencesNumbered(map_, hypotMap, old(types)[y]);
        err := RemapType(y);
        y := y + 1;
      }
      return 0;
    }

    /** Passes two and three. */
    method SettleStructs(ghost rank: seq<nat>) returns (err: int)
      requires Valid() && Fresh(types, map_)
      modifies this`map_, this`table, this`hypotMap, this`hypotList
      ensures Valid() && Rooted(types, map_) && OneOfTwins(types, map_)
      ensures err == 0 ==> CompositesMapped(types, map_, |types|) && Grounded(types, types, map_)
      ensures err == 0 && CGraph(types, rank) ==> AllReady(types, map_, rank)
      ensures NoVarRefs(types) ==> err == 0
    {
      PrimTypes();
      ghost var m := map_;
      TwinsAtFirst(types, m);
      err := StructTypes();
      RootedAtFirst(types, m, map_);
      if err == 0 {
        if CGraph(types, rank) {
          RankedAtFirst(types, m, map_, rank);
        }
        GroundedAtFirst(types, map_);
      }
    }

    /** Passes two to four: every type gets its canonical type. */
    method Canonicalize(ghost rank: seq<nat>) returns (err: int)
      requires Valid() && Fresh(types, map_)
      modifies this
      ensures Settled(types, map_, table) && Equivalent(old(types), types) && |hypotMap| == |types|
      ensures err == 0 ==> AllMapped(map_) && OneOfTwins(old(types), map_)
      ensures CGraph(old(types), rank) ==> err == 0
      ensures err == 0 ==> HasRanks(old(types))
    {
      err := SettleStructs(rank);
      if err == 0 {
        ghost var m := map_;
        err := RefTypes(rank, types);
        TwinsStay(old(types), m, map_);
      }
    }

    /** Passes five and six. */
    method Renumber() returns (err: int, ghost h: Graph)
      requires GoodGraph(types) && GoodMap(types, map_) && AllMapped(map_) && |hypotMap| == |types|
      modifies this`types, this`hypotMap
      ensures err == 0 && Remapped(old(types), map_, hypotMap, h, types)
    {
      ghost var g := types;
      GoodMapIsFlat(g, map_);
      CompactTypes();
      h := types;
      NumberedChildren(g, map_, hypotMap, h);
      err := RemapTypes();
    }

    /** `btf__dedup` after the string pass. On success no type lost its meaning, the new IDs are dense,
        and types compared exactly are unique. Types have one new ID exactly if they have one canonical type
        in `canon`; of structs that are copies of each other at most one is canonical, and all get one new ID
        when no other struct has their tree. It succeeds exactly when every cycle of types passes through a
        struct or union, as in C, where only sections refer to variables. */
    method Run() returns (err: int, ghost newId: seq<nat>, ghost canon: seq<nat>)
      requires Valid() && Fresh(types, map_)
      modifies this
      ensures err == 0 ==> Deduplicated(old(types), types, newId)
      ensures err == 0 ==> Folds(canon, newId) && InOrder(canon, newId)
      ensures err == 0 ==> OneOfTwins(old(types), canon) && CopiesMerged(old(types), newId)
      ensures err == 0 ==> HasRanks(old(types))
      ensures NoVarRefs(old(types)) && HasRanks(old(types)) ==> err == 0
    {
      newId, canon := [], [];
      ghost var rank := if HasRanks(types) then var r :| CyclesAreComposite(types, r); r else [];
      err := Canonicalize(rank);
      if err == 0 {
        canon := map_;
        newId := Finish(old(types));
        CopiesAreMerged(old(types), types, newId, canon);
      }
    }

    /** The last two passes, which cannot fail. */
    method Finish(ghost g: Graph) returns (ghost newId: seq<nat>)
      requires Settled(types, map_, table) && AllMapped(map_) && |hypotMap| == |types| && Equivalent(g, types)
      modifies this`types, this`hypotMap
      ensures Deduplicated(g, types, newId) && Folds(map_, newId) && InOrder(map_, newId)
    {
      ghost var k := types;
      var err;
      ghost var h;
      err, h := Renumber();
      newId := ResultIsDeduplicated(k, map_, table, hypotMap, h, types);
      DeduplicatedCarries(g, k, types, newId);
    }
  }
}
