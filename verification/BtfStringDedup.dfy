/** `btf_dedup_strings` as a whole, on the string section and the type records it rewrites. */
module BtfStringDedup {
  import opened BtfTypes
  import opened BtfStrings
  import opened BtfStringPass
  import opened BtfNames
  import opened Lists

  const EINVAL: int := -22

  /** `btf_parse_str_sec`: the section starts and ends with NUL. */
  ghost predicate GoodSection(d: string) {
    d != [] && d[0] == NUL && d[|d| - 1] == NUL
  }

  /** Some type refers to a string at `off`. */
  ghost predicate IsName(g: Graph, off: nat) {
    exists id, j :: 1 <= id < |g| && 0 <= j < |Names(g[id])| && Names(g[id])[j] == off
  }

  // ---------------------------------------------------------------- the index

  ghost predicate HasEntry(ps: seq<StrPtr>, off: nat) {
    exists i :: 0 <= i < |ps| && ps[i].off == off
  }

  predicate LeOffset(a: StrPtr, b: StrPtr) {
    a.off <= b.off
  }

  ghost predicate ByOffset(ps: seq<StrPtr>) {
    forall i, j :: 0 <= i < j < |ps| ==> ps[i].off <= ps[j].off
  }

  ghost predicate Listed(ss: seq<string>, ps: seq<StrPtr>) {
    && |ps| <= |ss|
    && forall i {:trigger ps[i]} :: 0 <= i < |ps| ==> ps[i] == StrPtr(OffOf(ss, i), 0, false)
  }

  lemma ListedNext(ss: seq<string>, ps: seq<StrPtr>)
    requires Listed(ss, ps) && |ps| < |ss|
    ensures Listed(ss, ps + [StrPtr(OffOf(ss, |ps|), 0, false)])
  {
  }

  lemma ListedByOffset(ss: seq<string>, ps: seq<StrPtr>)
    requires Listed(ss, ps)
    ensures ByOffset(ps)
  {
    forall i, j | 0 <= i < j < |ps|
      ensures ps[i].off <= ps[j].off
    {
      OffOfGrows(ss, i, j);
    }
  }

  /** The first loop of `btf_dedup_strings`. */
  method BuildIndex(d: string) returns (ps: seq<StrPtr>)
    requires GoodSection(d)
    ensures |ps| == |Split(d)| && Listed(Split(d), ps)
  {
    ghost var ss := Split(d);
    SplitIs(d);
    OffOfEnd(ss);
    ps := [];
    var p := 0;
    while p < |d|
      invariant Listed(ss, ps) && p == OffOf(ss, |ps|)
      decreases |ss| - |ps|
    {
      BlobAt(ss, |ps|);
      OffOfNext(ss, |ps|);
      ListedNext(ss, ps);
      ps := ps + [StrPtr(p, 0, false)];
      p := p + |StrAt(d, p)| + 1;
    }
    if |ps| < |ss| {
      OffOfGrows(ss, |ps|, |ss|);
    }
  }

  /** The strings of the index make up the whole section. */
  lemma {:induction false} SizeOfIndex(d: string, ps: seq<StrPtr>)
    requires GoodSection(d) && Listed(Split(d), ps)
    ensures Size(Contents(d, ps)) == OffOf(Split(d), |ps|)
    decreases |ps|
  {
    if ps != [] {
      var k := |ps| - 1;
      SplitIs(d);
      BlobAt(Split(d), k);
      OffOfNext(Split(d), k);
      SizeOfIndex(d, ps[..k]);
      assert Contents(d, ps)[..k] == Contents(d, ps[..k]);
    }
  }

  /** `bsearch` by offset: the entry, or `|ps|`. */
  method Find(ps: seq<StrPtr>, off: nat) returns (i: nat)
    requires ByOffset(ps)
    ensures i <= |ps| && (i < |ps| ==> ps[i].off == off)
    ensures i == |ps| ==> !HasEntry(ps, off)
  {
    var lo, hi := 0, |ps|;
    while lo < hi
      invariant 0 <= lo <= hi <= |ps|
      invariant forall k :: 0 <= k < lo ==> ps[k].off < off
      invariant forall k :: hi <= k < |ps| ==> ps[k].off > off
    {
      var mid := (lo + hi) / 2;
      if ps[mid].off == off {
        return mid;
      } else if ps[mid].off < off {
        lo := mid + 1;
      } else {
        hi := mid;
      }
    }
    return |ps|;
  }

  // ---------------------------------------------------------------- marking

  /** Only what is referenced, or at offset 0, is marked. */
  ghost predicate OnlyUsed(g: Graph, ps: seq<StrPtr>) {
    forall i :: 0 <= i < |ps| && ps[i].used ==> ps[i].off == 0 || IsName(g, ps[i].off)
  }

  ghost predicate UsedAt(ps: seq<StrPtr>, off: nat) {
    exists i :: 0 <= i < |ps| && ps[i].off == off && ps[i].used
  }

  /** Every reference of type `t` before position `n` is marked. */
  ghost predicate Marked(t: BtfType, ps: seq<StrPtr>, n: nat) {
    forall j {:trigger Names(t)[j]} :: 0 <= j < n && j < |Names(t)| && Names(t)[j] != 0 ==> UsedAt(ps, Names(t)[j])
  }

  /** The entries are the same, and no mark was taken back. */
  ghost predicate MoreUsed(ps: seq<StrPtr>, qs: seq<StrPtr>) {
    && |ps| == |qs|
    && forall i :: 0 <= i < |ps| ==> qs[i].off == ps[i].off && (ps[i].used ==> qs[i].used)
  }

  lemma MarkedStays(t: BtfType, ps: seq<StrPtr>, qs: seq<StrPtr>, n: nat)
    requires Marked(t, ps, n) && MoreUsed(ps, qs)
    ensures Marked(t, qs, n)
  {
    forall j | 0 <= j < n && j < |Names(t)| && Names(t)[j] != 0
      ensures UsedAt(qs, Names(t)[j])
    {
      var i :| 0 <= i < |ps| && ps[i].off == Names(t)[j] && ps[i].used;
      assert qs[i].off == Names(t)[j] && qs[i].used;
    }
  }

  /** `btf_str_mark_as_used`. */
  method MarkOne(ps: seq<StrPtr>, off: nat) returns (err: int, qs: seq<StrPtr>)
    requires ByOffset(ps)
    ensures MoreUsed(ps, qs) && ByOffset(qs)
    ensures forall i :: 0 <= i < |ps| && qs[i].used ==> ps[i].used || (off != 0 && ps[i].off == off)
    ensures err == 0 ==> off == 0 || UsedAt(qs, off)
    ensures err == 0 <==> off == 0 || HasEntry(ps, off)
  {
    if off == 0 {
      return 0, ps;
    }
    var i := Find(ps, off);
    if i == |ps| {
      return EINVAL, ps;
    }
    qs := ps[i := ps[i].(used := true)];
    assert qs[i].off == off && qs[i].used;
    return 0, qs;
  }

  method MarkType(ghost g: Graph, id: nat, t: BtfType, ps: seq<StrPtr>) returns (err: int, qs: seq<StrPtr>)
    requires ByOffset(ps) && OnlyUsed(g, ps) && 1 <= id < |g| && g[id] == t
    ensures MoreUsed(ps, qs) && ByOffset(qs) && OnlyUsed(g, qs)
    ensures err == 0 ==> Marked(t, qs, |Names(t)|)
    ensures err != 0 ==> exists j :: 0 <= j < |Names(t)| && Names(t)[j] != 0 && !HasEntry(ps, Names(t)[j])
  {
    qs := ps;
    var j := 0;
    while j < |Names(t)|
      invariant 0 <= j <= |Names(t)|
      invariant MoreUsed(ps, qs) && ByOffset(qs) && OnlyUsed(g, qs) && Marked(t, qs, j)
    {
      ghost var before := qs;
      err, qs := MarkOne(qs, Names(t)[j]);
      MarkedStays(t, before, qs, j);
      assert IsName(g, Names(t)[j]);
      if err != 0 {
        SameEntriesFound(ps, before, Names(t)[j]);
        return;
      }
      j := j + 1;
    }
    return 0, qs;
  }

  lemma SameEntriesFound(ps: seq<StrPtr>, qs: seq<StrPtr>, off: nat)
    requires MoreUsed(ps, qs)
    ensures HasEntry(ps, off) <==> HasEntry(qs, off)
  {
    if HasEntry(ps, off) {
      var i :| 0 <= i < |ps| && ps[i].off == off;
      assert qs[i].off == off;
    }
    if HasEntry(qs, off) {
      var i :| 0 <= i < |qs| && qs[i].off == off;
      assert ps[i].off == off;
    }
  }

  ghost predicate AllMarked(g: Graph, ps: seq<StrPtr>, n: nat) {
    forall id {:trigger g[id]} :: 1 <= id < n && id < |g| ==> Marked(g[id], ps, |Names(g[id])|)
  }

  /** A reference that does not point at the start of a string. */
  ghost predicate BadName(g: Graph, ps: seq<StrPtr>) {
    exists id, j :: 1 <= id < |g| && 0 <= j < |Names(g[id])| && Names(g[id])[j] != 0 && !HasEntry(ps, Names(g[id])[j])
  }

  /** The first `btf_for_each_str_off`. */
  method MarkAll(g: Graph, ps: seq<StrPtr>) returns (err: int, qs: seq<StrPtr>)
    requires ByOffset(ps) && OnlyUsed(g, ps)
    ensures MoreUsed(ps, qs) && OnlyUsed(g, qs)
    ensures err == 0 ==> AllMarked(g, qs, |g|)
    ensures err != 0 ==> BadName(g, ps)
  {
    qs := ps;
    var id: nat := 1;
    while id < |g|
      invariant 1 <= id && (id <= |g| || |g| == 0)
      invariant MoreUsed(ps, qs) && ByOffset(qs) && OnlyUsed(g, qs) && AllMarked(g, qs, id)
    {
      ghost var before := qs;
      err, qs := MarkType(g, id, g[id], qs);
      if err != 0 {
        ghost var j :| 0 <= j < |Names(g[id])| && Names(g[id])[j] != 0 && !HasEntry(before, Names(g[id])[j]);
        SameEntriesFound(ps, before, Names(g[id])[j]);
        return;
      }
      forall x | 1 <= x < id
        ensures Marked(g[x], qs, |Names(g[x])|)
      {
        MarkedStays(g[x], before, qs, |Names(g[x])|);
      }
      id := id + 1;
    }
    return 0, qs;
  }

  // ---------------------------------------------------------------- remapping

  /** An entry whose string is referenced, by itself or by an equal one, says where the copy starts. */
  ghost predicate Relocated(d: string, ss: seq<string>, ps: seq<StrPtr>) {
    forall i, k :: 0 <= i < |ps| && 0 <= k < |ps| && ps[k].used && StrAt(d, ps[k].off) == StrAt(d, ps[i].off) ==>
      EmittedAt(StrAt(d, ps[i].off), ps[i].newOff, ss)
  }

  lemma EmittedIsRead(s: string, off: nat, ss: seq<string>)
    requires EmittedAt(s, off, ss) && NoNuls(ss)
    ensures StrAt(Blob(ss), off) == s
  {
    var j :| 0 <= j < |ss| && ss[j] == s && OffOf(ss, j) == off;
    BlobAt(ss, j);
  }

  /** The same strings, under other offsets. */
  ghost predicate SameNames(d: string, t: BtfType, e: string, u: BtfType) {
    && Unnamed(u) == Unnamed(t) && |Names(u)| == |Names(t)|
    && (forall j :: 0 <= j < |Names(t)| ==> StrAt(e, Names(u)[j]) == StrAt(d, Names(t)[j]))
    && (!HasNamedSlots(t.Kind()) ==> u.slots == t.slots)
  }

  /** The first `j` names of `t` are rewritten in `u`, to where the strings start if all were `marked`. */
  ghost predicate Renaming(d: string, t: BtfType, ss: seq<string>, u: BtfType, j: nat, marked: bool) {
    && j <= |Names(t)| == |Names(u)| && Unnamed(u) == Unnamed(t)
    && (marked ==> forall i :: 0 <= i < j ==> EmittedAt(StrAt(d, Names(t)[i]), Names(u)[i], ss))
    && (forall i :: j <= i < |Names(t)| ==> Names(u)[i] == Names(t)[i])
    && (!HasNamedSlots(t.Kind()) ==> u.slots == t.slots)
  }

  /** All names are. */
  ghost predicate Renamed(d: string, t: BtfType, ss: seq<string>, u: BtfType) {
    Renaming(d, t, ss, u, |Names(t)|, true)
  }

  lemma RenamedIsSame(d: string, t: BtfType, ss: seq<string>, u: BtfType)
    requires Renamed(d, t, ss, u) && NoNuls(ss)
    ensures SameNames(d, t, Blob(ss), u)
  {
    forall j | 0 <= j < |Names(t)|
      ensures StrAt(Blob(ss), Names(u)[j]) == StrAt(d, Names(t)[j])
    {
      EmittedIsRead(StrAt(d, Names(t)[j]), Names(u)[j], ss);
    }
  }

  lemma RenamingNext(d: string, t: BtfType, ss: seq<string>, u: BtfType, j: nat, marked: bool, off: nat)
    requires Renaming(d, t, ss, u, j, marked) && j < |Names(t)|
    requires marked ==> EmittedAt(StrAt(d, Names(t)[j]), off, ss)
    ensures Renaming(d, t, ss, SetName(u, j, off), j + 1, marked)
  {
    UnnamedChildren(u, t);
    SetNameIs(u, j, off);
  }

  lemma RenamingSkips(d: string, t: BtfType, ss: seq<string>, u: BtfType, j: nat, marked: bool)
    requires Renaming(d, t, ss, u, j, marked) && j < |Names(t)| && Names(u)[j] == 0
    requires StrAt(d, 0) == [] && ss != [] && ss[0] == []
    ensures Renaming(d, t, ss, u, j + 1, marked)
  {
    assert EmittedAt(StrAt(d, 0), 0, ss) by {
      assert OffOf(ss, 0) == 0;
    }
  }

  /** `btf_str_remap_offset` on every name of `t`. */
  method RenameType(ghost d: string, ghost ss: seq<string>, t: BtfType, ps: seq<StrPtr>) returns (err: int, u: BtfType)
    requires ByOffset(ps) && Relocated(d, ss, ps) && StrAt(d, 0) == [] && ss != [] && ss[0] == []
    ensures Marked(t, ps, |Names(t)|) ==> err == 0 && Renamed(d, t, ss, u)
  {
    ghost var marked := Marked(t, ps, |Names(t)|);
    u := t;
    var j: nat := 0;
    while j < |Names(t)|
      invariant Renaming(d, t, ss, u, j, marked)
    {
      if Names(u)[j] != 0 {
        var i := Find(ps, Names(u)[j]);
        if marked {
          UsedIsFound(d, ss, ps, Names(t)[j], i);
        }
        if i == |ps| {
          return EINVAL, u;
        }
        RenamingNext(d, t, ss, u, j, marked, ps[i].newOff);
        u := SetName(u, j, ps[i].newOff);
      } else {
        RenamingSkips(d, t, ss, u, j, marked);
      }
      j := j + 1;
    }
    return 0, u;
  }

  lemma UsedIsFound(d: string, ss: seq<string>, ps: seq<StrPtr>, off: nat, i: nat)
    requires Relocated(d, ss, ps) && UsedAt(ps, off)
    ensures HasEntry(ps, off)
    ensures i < |ps| && ps[i].off == off ==> EmittedAt(StrAt(d, off), ps[i].newOff, ss)
  {
    var k :| 0 <= k < |ps| && ps[k].off == off && ps[k].used;
  }

  /** The second `btf_for_each_str_off`. */
  method RenameAll(ghost d: string, ghost ss: seq<string>, g: Graph, ps: seq<StrPtr>) returns (err: int, h: Graph)
    requires ByOffset(ps) && Relocated(d, ss, ps) && StrAt(d, 0) == [] && ss != [] && ss[0] == [] && g != []
    requires AllMarked(g, ps, |g|)
    ensures err == 0 && |h| == |g| && h[0] == g[0]
    ensures forall id :: 1 <= id < |g| ==> Renamed(d, g[id], ss, h[id])
  {
    h := g;
    var id: nat := 1;
    while id < |g|
      invariant 1 <= id <= |g| == |h| && h[0] == g[0]
      invariant forall x :: 1 <= x < id ==> Renamed(d, g[x], ss, h[x])
      invariant forall x :: id <= x < |g| ==> h[x] == g[x]
    {
      assert Marked(g[id], ps, |Names(g[id])|);
      var u;
      err, u := RenameType(d, ss, h[id], ps);
      h := h[id := u];
      id := id + 1;
    }
    return 0, h;
  }

  // ---------------------------------------------------------------- the pass

  /** What the string pass promises about the old section and graph and the new ones. */
  ghost predicate StringsDeduped(d: string, g: Graph, e: string, h: Graph) {
    && |h| == |g| > 0 && h[0] == g[0]
    && (forall id :: 1 <= id < |g| ==> SameNames(d, g[id], e, h[id]))
    && StrAt(d, 0) == StrAt(e, 0) == [] && |e| <= |d|
    && exists ss :: OnlyReferenced(d, g, e, ss) && AtStarts(ss, h)
  }

  /** Every reference is to the start of one of the strings. */
  ghost predicate AtStarts(ss: seq<string>, h: Graph) {
    forall id, j {:trigger Names(h[id])[j]} :: 1 <= id < |h| && 0 <= j < |Names(h[id])| ==>
      EmittedAt(StrAt(Blob(ss), Names(h[id])[j]), Names(h[id])[j], ss)
  }

  lemma RenamedAtStarts(d: string, g: Graph, ss: seq<string>, h: Graph)
    requires |g| == |h| && NoNuls(ss) && forall id :: 1 <= id < |g| ==> Renamed(d, g[id], ss, h[id])
    ensures AtStarts(ss, h)
    ensures forall id :: 1 <= id < |g| ==> SameNames(d, g[id], Blob(ss), h[id])
  {
    forall id | 1 <= id < |h|
      ensures SameNames(d, g[id], Blob(ss), h[id])
    {
      RenamedIsSame(d, g[id], ss, h[id]);
    }
    forall id, j | 1 <= id < |h| && 0 <= j < |Names(h[id])|
      ensures EmittedAt(StrAt(Blob(ss), Names(h[id])[j]), Names(h[id])[j], ss)
    {
      assert Renamed(d, g[id], ss, h[id]);
      EmittedIsRead(StrAt(d, Names(g[id])[j]), Names(h[id])[j], ss);
    }
  }

  /** As the strings are distinct, equal names are equal offsets. */
  lemma StartsAreUnique(ss: seq<string>, a: nat, b: nat)
    requires NoNuls(ss) && NoDup(ss) && StrAt(Blob(ss), a) == StrAt(Blob(ss), b)
    requires EmittedAt(StrAt(Blob(ss), a), a, ss) && EmittedAt(StrAt(Blob(ss), b), b, ss)
    ensures a == b
  {
  }

  /** The new section holds the strings `ss`: the empty one first, no two equal, and each of the
      others referenced. */
  ghost predicate OnlyReferenced(d: string, g: Graph, e: string, ss: seq<string>) {
    && e == Blob(ss) && NoNuls(ss) && NoDup(ss) && ss != [] && ss[0] == []
    && forall j {:trigger ss[j]} :: 1 <= j < |ss| ==> exists off :: IsName(g, off) && StrAt(d, off) == ss[j]
  }

  lemma SizeSplit(cs: seq<string>, i: nat)
    requires i < |cs|
    ensures Size(cs) == Size(cs[..i] + cs[i + 1..]) + |cs[i]| + 1
    decreases |cs|
  {
    var r := cs[..i] + cs[i + 1..];
    if i == |cs| - 1 {
      assert r == cs[..|cs| - 1];
    } else {
      var f := cs[..|cs| - 1];
      SizeSplit(f, i);
      assert r[..|r| - 1] == f[..i] + f[i + 1..];
    }
  }

  lemma RemoveOne(qs: seq<StrPtr>, i: nat)
    requires i < |qs|
    ensures multiset(qs[..i] + qs[i + 1..]) == multiset(qs) - multiset{qs[i]}
  {
    assert qs == qs[..i] + [qs[i]] + qs[i + 1..];
  }

  lemma SizeWithout(d: string, qs: seq<StrPtr>, i: nat)
    requires i < |qs|
    ensures Size(Contents(d, qs)) == Size(Contents(d, qs[..i] + qs[i + 1..])) + |Content(d, qs[i])| + 1
  {
    SizeSplit(Contents(d, qs), i);
    assert Contents(d, qs)[..i] + Contents(d, qs)[i + 1..] == Contents(d, qs[..i] + qs[i + 1..]);
  }

  /** A permutation of the entries has the same strings, so the same total size. */
  lemma {:induction false} SizePermutes(d: string, ps: seq<StrPtr>, qs: seq<StrPtr>)
    requires multiset(ps) == multiset(qs)
    ensures Size(Contents(d, ps)) == Size(Contents(d, qs))
    decreases |ps|
  {
    assert |ps| == |multiset(ps)| == |qs|;
    if ps == [] {
      assert qs == ps;
    } else {
      assert ps[0] in multiset(ps);
      var i :| 0 <= i < |qs| && qs[i] == ps[0];
      var ps', qs' := ps[..0] + ps[1..], qs[..i] + qs[i + 1..];
      SizePermutes(d, ps', qs') by {
        RemoveOne(qs, i);
        RemoveOne(ps, 0);
      }
      SizeWithout(d, ps, 0);
      SizeWithout(d, qs, i);
    }
  }

  // ---------------------------------------------------------------- sorting keeps what was marked

  ghost predicate Permuted(ps: seq<StrPtr>, qs: seq<StrPtr>) {
    multiset(ps) == multiset(qs)
  }

  lemma PermutedHas(ps: seq<StrPtr>, qs: seq<StrPtr>, i: nat) returns (k: nat)
    requires Permuted(ps, qs) && i < |ps|
    ensures k < |qs| && qs[k] == ps[i]
  {
    assert ps[i] in multiset(ps);
    k :| 0 <= k < |qs| && qs[k] == ps[i];
  }

  lemma UsedAtPermutes(ps: seq<StrPtr>, qs: seq<StrPtr>, off: nat)
    requires Permuted(ps, qs) && UsedAt(ps, off)
    ensures UsedAt(qs, off)
  {
    var i :| 0 <= i < |ps| && ps[i].off == off && ps[i].used;
    var k := PermutedHas(ps, qs, i);
  }

  lemma UsedAtSame(ps: seq<StrPtr>, qs: seq<StrPtr>, off: nat)
    requires SameEntries(ps, qs) && UsedAt(ps, off)
    ensures UsedAt(qs, off)
  {
    var i :| 0 <= i < |ps| && ps[i].off == off && ps[i].used;
    assert qs[i].off == off && qs[i].used;
  }

  lemma AllMarkedCarries(g: Graph, ps: seq<StrPtr>, qs: seq<StrPtr>)
    requires Permuted(ps, qs) || SameEntries(ps, qs)
    requires AllMarked(g, ps, |g|)
    ensures AllMarked(g, qs, |g|)
  {
    forall id | 1 <= id < |g|
      ensures Marked(g[id], qs, |Names(g[id])|)
    {
      assert Marked(g[id], ps, |Names(g[id])|);
      forall j | 0 <= j < |Names(g[id])| && Names(g[id])[j] != 0
        ensures UsedAt(qs, Names(g[id])[j])
      {
        if Permuted(ps, qs) {
          UsedAtPermutes(ps, qs, Names(g[id])[j]);
        } else {
          UsedAtSame(ps, qs, Names(g[id])[j]);
        }
      }
    }
  }

  lemma OnlyUsedCarries(g: Graph, ps: seq<StrPtr>, qs: seq<StrPtr>)
    requires Permuted(ps, qs) || SameEntries(ps, qs)
    requires OnlyUsed(g, ps)
    ensures OnlyUsed(g, qs)
  {
    forall i | 0 <= i < |qs| && qs[i].used
      ensures qs[i].off == 0 || IsName(g, qs[i].off)
    {
      if Permuted(ps, qs) {
        var k := PermutedHas(qs, ps, i);
      }
    }
  }

  lemma RelocatedPermutes(d: string, ss: seq<string>, ps: seq<StrPtr>, qs: seq<StrPtr>)
    requires Permuted(ps, qs) && Relocated(d, ss, ps)
    ensures Relocated(d, ss, qs)
  {
    forall i, k | 0 <= i < |qs| && 0 <= k < |qs| && qs[k].used && StrAt(d, qs[k].off) == StrAt(d, qs[i].off)
      ensures EmittedAt(StrAt(d, qs[i].off), qs[i].newOff, ss)
    {
      var i' := PermutedHas(qs, ps, i);
      var k' := PermutedHas(qs, ps, k);
    }
  }

  /** What the emitting loop wrote is where it says. */
  lemma EmittedIsRelocated(d: string, ps: seq<StrPtr>, ss: seq<string>)
    requires Emitted(Contents(d, ps), ps, |ps|, ss)
    ensures Relocated(d, ss, ps)
  {
    var cs := Contents(d, ps);
    forall i, k | 0 <= i < |ps| && 0 <= k < |ps| && ps[k].used && StrAt(d, ps[k].off) == StrAt(d, ps[i].off)
      ensures EmittedAt(StrAt(d, ps[i].off), ps[i].newOff, ss)
    {
      assert cs[k] == cs[i];
      assert Referenced(cs, ps, i);
      assert EmittedAt(cs[i], ps[i].newOff, ss);
    }
  }

  lemma EmittedOnlyReferenced(d: string, g: Graph, ps: seq<StrPtr>, ss: seq<string>)
    requires Emitted(Contents(d, ps), ps, |ps|, ss) && OnlyUsed(g, ps) && StrAt(d, 0) == []
    requires ss != [] && ss[0] == []
    ensures OnlyReferenced(d, g, Blob(ss), ss)
  {
    forall j | 1 <= j < |ss|
      ensures exists off :: IsName(g, off) && StrAt(d, off) == ss[j]
    {
      assert HasReference(Contents(d, ps), ps, |ps|, ss[j]);
      var i :| 0 <= i < |ps| && ps[i].used && Contents(d, ps)[i] == ss[j];
      assert ss[j] != ss[0];
      assert IsName(g, ps[i].off);
    }
  }

  /** The empty string sorts first. */
  lemma FirstIsEmpty(d: string, ps: seq<StrPtr>)
    requires StrAt(d, 0) == [] && UsedAt(ps, 0) && SortedStrings(Contents(d, ps))
    ensures |ps| > 0 && Content(d, ps[0]) == [] && Referenced(Contents(d, ps), ps, 0)
  {
    var cs := Contents(d, ps);
    var i :| 0 <= i < |ps| && ps[i].off == 0 && ps[i].used;
    assert cs[i] == [];
    if i > 0 {
      assert StrLe(cs[0], cs[i]);
    }
    assert ps[i].used && cs[i] == cs[0];
  }

  // ---------------------------------------------------------------- the pass as a whole

  /** Every reference is to the start of a string. */
  ghost predicate GoodNames(d: string, g: Graph) {
    forall id, j {:trigger Names(g[id])[j]} ::
      1 <= id < |g| && 0 <= j < |Names(g[id])| && Names(g[id])[j] != 0 ==> IsStart(d, Names(g[id])[j])
  }

  lemma EntryIsStart(d: string, ps: seq<StrPtr>, off: nat)
    requires |ps| == |Split(d)| && Listed(Split(d), ps)
    ensures HasEntry(ps, off) <==> IsStart(d, off)
  {
    if HasEntry(ps, off) {
      var i :| 0 <= i < |ps| && ps[i].off == off;
      assert OffOf(Split(d), i) == off;
    }
    if IsStart(d, off) {
      var i :| 0 <= i < |Split(d)| && OffOf(Split(d), i) == off;
      assert ps[i].off == off;
    }
  }

  lemma MarkedIsGood(d: string, g: Graph, ps: seq<StrPtr>, qs: seq<StrPtr>)
    requires |ps| == |Split(d)| && Listed(Split(d), ps) && MoreUsed(ps, qs)
    requires AllMarked(g, qs, |g|)
    ensures GoodNames(d, g)
  {
    forall id, j | 1 <= id < |g| && 0 <= j < |Names(g[id])| && Names(g[id])[j] != 0
      ensures IsStart(d, Names(g[id])[j])
    {
      assert Marked(g[id], qs, |Names(g[id])|);
      assert HasEntry(qs, Names(g[id])[j]);
      SameEntriesFound(ps, qs, Names(g[id])[j]);
      EntryIsStart(d, ps, Names(g[id])[j]);
    }
  }

  lemma BadIsBad(d: string, g: Graph, ps: seq<StrPtr>, qs: seq<StrPtr>)
    requires |ps| == |Split(d)| && Listed(Split(d), ps) && MoreUsed(ps, qs)
    requires BadName(g, qs)
    ensures !GoodNames(d, g)
  {
    var id, j :| 1 <= id < |g| && 0 <= j < |Names(g[id])| && Names(g[id])[j] != 0 && !HasEntry(qs, Names(g[id])[j]);
    SameEntriesFound(ps, qs, Names(g[id])[j]);
    EntryIsStart(d, ps, Names(g[id])[j]);
  }

  lemma MoreUsedTrans(ps: seq<StrPtr>, qs: seq<StrPtr>, rs: seq<StrPtr>)
    requires MoreUsed(ps, qs) && MoreUsed(qs, rs)
    ensures MoreUsed(ps, rs)
  {
  }

  lemma MoreUsedContents(d: string, ps: seq<StrPtr>, qs: seq<StrPtr>)
    requires MoreUsed(ps, qs)
    ensures Contents(d, ps) == Contents(d, qs)
  {
  }

  /** Index the section and mark what the types refer to. */
  method IndexAndMark(d: string, g: Graph) returns (err: int, ps: seq<StrPtr>)
    requires GoodSection(d)
    ensures err == 0 <==> GoodNames(d, g)
    ensures err == 0 ==> AllMarked(g, ps, |g|) && OnlyUsed(g, ps) && UsedAt(ps, 0)
    ensures Size(Contents(d, ps)) == |d|
  {
    var index := BuildIndex(d);
    SplitIs(d);
    SizeOfIndex(d, index);
    OffOfEnd(Split(d));
    ListedByOffset(Split(d), index);
    var first := index[0 := index[0].(used := true)];
    err, ps := MarkAll(g, first);
    assert first[0].used && first[0].off == 0 && ps[0].used && ps[0].off == 0;
    MoreUsedTrans(index, first, ps);
    MoreUsedContents(d, index, ps);
    if err == 0 {
      MarkedIsGood(d, g, index, ps);
    } else {
      BadIsBad(d, g, index, first);
    }
  }

  /** Sort by content, emit one copy of each referenced string, and sort back. */
  method EmitSorted(d: string, ghost g: Graph, ps: seq<StrPtr>)
    returns (qs: seq<StrPtr>, e: string, ghost ss: seq<string>)
    requires AllMarked(g, ps, |g|) && OnlyUsed(g, ps) && UsedAt(ps, 0) && StrAt(d, 0) == []
    ensures AllMarked(g, qs, |g|) && ByOffset(qs) && Relocated(d, ss, qs)
    ensures OnlyReferenced(d, g, e, ss) && |e| <= Size(Contents(d, ps))
  {
    var byContent := SortByContent(d, g, ps);
    FirstIsEmpty(d, byContent);
    var placed;
    placed, e, ss := Emit(d, byContent);
    WholePrefix(Contents(d, byContent));
    qs := EmittedInOrder(d, g, byContent, placed, ss);
  }

  lemma WholePrefix<T>(s: seq<T>)
    ensures s[..|s|] == s
  {
  }

  method SortByContent(d: string, ghost g: Graph, ps: seq<StrPtr>) returns (qs: seq<StrPtr>)
    requires AllMarked(g, ps, |g|) && OnlyUsed(g, ps) && UsedAt(ps, 0)
    ensures AllMarked(g, qs, |g|) && OnlyUsed(g, qs) && UsedAt(qs, 0)
    ensures SortedStrings(Contents(d, qs)) && Size(Contents(d, qs)) == Size(Contents(d, ps))
  {
    LeContentOrders(d);
    qs := Sort(ps, (a, b) => LeContent(d, a, b));
    assert Permuted(ps, qs);
    SizePermutes(d, ps, qs);
    AllMarkedCarries(g, ps, qs);
    OnlyUsedCarries(g, ps, qs);
    UsedAtPermutes(ps, qs, 0);
  }

  method EmittedInOrder(ghost d: string, ghost g: Graph, ghost byContent: seq<StrPtr>, placed: seq<StrPtr>,
                        ghost ss: seq<string>)
    returns (qs: seq<StrPtr>)
    requires SameEntries(byContent, placed) && Emitted(Contents(d, byContent), placed, |placed|, ss)
    requires AllMarked(g, byContent, |g|) && OnlyUsed(g, byContent) && StrAt(d, 0) == []
    requires ss != [] && ss[0] == []
    ensures AllMarked(g, qs, |g|) && ByOffset(qs) && Relocated(d, ss, qs)
    ensures OnlyReferenced(d, g, Blob(ss), ss)
  {
    SameContents(d, byContent, placed);
    EmittedIsRelocated(d, placed, ss);
    AllMarkedCarries(g, byContent, placed);
    OnlyUsedCarries(g, byContent, placed);
    EmittedOnlyReferenced(d, g, placed, ss);
    qs := Sort(placed, LeOffset);
    assert Permuted(placed, qs);
    AllMarkedCarries(g, placed, qs);
    RelocatedPermutes(d, ss, placed, qs);
  }

  /** `btf_dedup_strings`. It fails exactly when some reference is not to the start of a string. */
  method DedupStrings(d: string, g: Graph) returns (err: int, e: string, h: Graph)
    requires GoodSection(d) && g != []
    ensures err == 0 <==> GoodNames(d, g)
    ensures err == 0 ==> StringsDeduped(d, g, e, h)
    ensures err != 0 ==> e == d && h == g
  {
    var ps;
    err, ps := IndexAndMark(d, g);
    if err != 0 {
      return err, d, g;
    }
    var qs;
    ghost var ss;
    qs, e, ss := EmitSorted(d, g, ps);
    BlobAt(ss, 0);
    err, h := RenameAll(d, ss, g, qs);
    RenamedAtStarts(d, g, ss, h);
  }
}
