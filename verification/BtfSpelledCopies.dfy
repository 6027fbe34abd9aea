/** Copies of structs and unions with their names spelled out, before the string pass. */
module BtfSpelledCopies {
  import opened BtfTypes
  import opened BtfCanon
  import opened BtfCopies
  import opened BtfNames
  import opened BtfStrings
  import opened BtfStringPass
  import opened BtfStringDedup
  import opened Lists

  /** As `Alike`, whatever offsets the names have. */
  predicate AlikeSpelled(d: string, a: BtfType, b: BtfType) {
    && Spell(d, Shell(a)) == Spell(d, Shell(b)) && |Children(a)| == |Children(b)| && Checkable(a.Kind())
    && (a.Kind() == FWD ==> a.sz == b.sz)
  }

  ghost predicate EmbedsSpelledAt(d: string, g: Graph, phi: map<nat, nat>, x: nat)
    requires x in phi
  {
    var y := phi[x];
    && 0 < x < |g| && 0 < y < |g| && AlikeSpelled(d, g[y], g[x])
    && forall j :: 0 <= j < |Children(g[x])| ==> Paired([], phi, Children(g[y])[j], Children(g[x])[j])
  }

  ghost predicate EmbedsSpelled(d: string, g: Graph, phi: map<nat, nat>) {
    forall x {:trigger EmbedsSpelledAt(d, g, phi, x)} :: x in phi ==> EmbedsSpelledAt(d, g, phi, x)
  }

  ghost predicate CopySpelled(d: string, g: Graph, id: nat, x: nat) {
    exists phi: map<nat, nat> :: EmbedsSpelled(d, g, phi) && x in phi && phi[x] == id
  }

  ghost predicate TwinsSpelled(d: string, g: Graph, x: nat, y: nat) {
    CopySpelled(d, g, x, y) && CopySpelled(d, g, y, x)
  }

  /** The trees agree, names included. */
  ghost predicate SameSpelled(d: string, g: Graph, x: nat, y: nat) {
    forall depth: nat :: Spelling(d, Unfold(g, x, depth)) == Spelling(d, Unfold(g, y, depth))
  }

  ghost predicate OnlyTwinsSpelled(d: string, g: Graph, x: nat) {
    forall y, z {:trigger SameSpelled(d, g, x, y), SameSpelled(d, g, x, z)} ::
      0 < y < |g| && 0 < z < |g| && y != z && SameSpelled(d, g, x, y) && SameSpelled(d, g, x, z) ==>
      TwinsSpelled(d, g, y, z)
  }

  // ---------------------------------------------------------------- after the string pass they are copies

  /** The names in the new graph. */
  ghost predicate AtStart(ss: seq<string>, off: nat) {
    EmittedAt(StrAt(Blob(ss), off), off, ss)
  }

  lemma SlotNameStarts(ss: seq<string>, h: Graph, id: nat, i: nat)
    requires AtStarts(ss, h) && 0 < id < |h| && GoodSlots(h[id]) && i < |h[id].slots|
    requires NoNuls(ss) && ss != [] && ss[0] == []
    ensures AtStart(ss, h[id].slots[i].name)
  {
    if HasNamedSlots(h[id].Kind()) {
      assert Names(h[id])[i + 1] == h[id].slots[i].name;
    } else {
      assert OffOf(ss, 0) == 0;
      BlobAt(ss, 0);
    }
  }

  lemma SpelledShells(ss: seq<string>, h: Graph, a: nat, b: nat)
    requires AtStarts(ss, h) && NoNuls(ss) && NoDup(ss) && ss != [] && ss[0] == []
    requires 0 < a < |h| && 0 < b < |h| && GoodSlots(h[a]) && GoodSlots(h[b])
    requires Spell(Blob(ss), Shell(h[a])) == Spell(Blob(ss), Shell(h[b]))
    ensures Shell(h[a]) == Shell(h[b])
  {
    var e, t, u := Blob(ss), Shell(h[a]), Shell(h[b]);
    assert t.info == h[a].info && u.info == h[b].info && t.info == u.info && t.sz == u.sz;
    assert Names(h[a])[0] == t.name && Names(h[b])[0] == u.name;
    StartsAreUnique(ss, t.name, u.name);
    assert |t.slots| == |SpellSlots(e, t.slots)| == |SpellSlots(e, u.slots)| == |u.slots|;
    forall i | 0 <= i < |t.slots|
      ensures t.slots[i] == u.slots[i]
    {
      assert SpellSlots(e, t.slots)[i] == SpellSlots(e, u.slots)[i];
      SlotNameStarts(ss, h, a, i);
      SlotNameStarts(ss, h, b, i);
      StartsAreUnique(ss, t.slots[i].name, u.slots[i].name);
    }
  }

  /** What the string pass leaves, as far as needed here. */
  ghost predicate Spelled(d: string, g: Graph, ss: seq<string>, h: Graph) {
    && GoodGraph(g) && GoodGraph(h) && SameSpelling(d, g, Blob(ss), h) && AtStarts(ss, h)
    && NoNuls(ss) && NoDup(ss) && ss != [] && ss[0] == []
    && forall id :: 0 <= id < |g| ==> g[id].info == h[id].info && g[id].sz == h[id].sz
  }

  lemma AlikeAfter(d: string, g: Graph, ss: seq<string>, h: Graph, a: nat, b: nat)
    requires Spelled(d, g, ss, h) && 0 < a < |g| && 0 < b < |g| && AlikeSpelled(d, g[a], g[b])
    ensures Alike(h[a], h[b])
  {
    assert GoodType(h[a], |h|) && GoodType(h[b], |h|);
    assert Children(g[a]) == Children(h[a]) && Children(g[b]) == Children(h[b]);
    SpelledShells(ss, h, a, b);
  }

  lemma CopyAfter(d: string, g: Graph, ss: seq<string>, h: Graph, id: nat, x: nat)
    requires Spelled(d, g, ss, h) && CopySpelled(d, g, id, x)
    ensures Copy(h, id, x)
  {
    var phi: map<nat, nat> :| EmbedsSpelled(d, g, phi) && x in phi && phi[x] == id;
    forall y | y in phi
      ensures EmbedsAt(h, [], phi, y)
    {
      assert EmbedsSpelledAt(d, g, phi, y);
      AlikeAfter(d, g, ss, h, phi[y], y);
      assert Children(g[y]) == Children(h[y]) && Children(g[phi[y]]) == Children(h[phi[y]]);
    }
    assert Embeds(h, [], phi);
  }

  lemma SameBefore(d: string, g: Graph, ss: seq<string>, h: Graph, x: nat, y: nat)
    requires Spelled(d, g, ss, h) && Same(h, x, h, y)
    ensures SameSpelled(d, g, x, y)
  {
    forall depth: nat
      ensures Spelling(d, Unfold(g, x, depth)) == Spelling(d, Unfold(g, y, depth))
    {
      SpellingSame(d, g, Blob(ss), h, x, depth);
      SpellingSame(d, g, Blob(ss), h, y, depth);
      assert Unfold(h, x, depth) == Unfold(h, y, depth);
    }
  }

  lemma OnlyTwinsAfter(d: string, g: Graph, ss: seq<string>, h: Graph, x: nat)
    requires Spelled(d, g, ss, h) && OnlyTwinsSpelled(d, g, x)
    ensures OnlyTwins(h, x)
  {
    forall y, z | 0 < y < |h| && 0 < z < |h| && y != z && Same(h, x, h, y) && Same(h, x, h, z)
      ensures Twins(h, y, z)
    {
      SameBefore(d, g, ss, h, x, y);
      SameBefore(d, g, ss, h, x, z);
      assert TwinsSpelled(d, g, y, z);
      CopyAfter(d, g, ss, h, y, z);
      CopyAfter(d, g, ss, h, z, y);
    }
  }

  // ---------------------------------------------------------------- what becomes of them

  ghost predicate OneOfTwinsSpelled(d: string, g: Graph, canon: seq<nat>) {
    |g| == |canon| && forall x, y {:trigger TwinsSpelled(d, g, x, y)} ::
      0 < x < |g| && 0 < y < |g| && x != y && IsComposite(g[x].Kind()) && TwinsSpelled(d, g, x, y) ==>
      canon[x] != x || canon[y] != y
  }

  ghost predicate CopiesMergedSpelled(d: string, g: Graph, newId: seq<nat>) {
    |newId| == |g| && forall x, y {:trigger TwinsSpelled(d, g, x, y)} ::
      0 < x < |g| && 0 < y < |g| && IsComposite(g[x].Kind()) && TwinsSpelled(d, g, x, y) ==>
      OnlyTwinsSpelled(d, g, x) ==> newId[x] == newId[y]
  }

  lemma MergedSpelled(d: string, g: Graph, ss: seq<string>, h: Graph, newId: seq<nat>, canon: seq<nat>)
    requires Spelled(d, g, ss, h) && CopiesMerged(h, newId) && OneOfTwins(h, canon)
    ensures CopiesMergedSpelled(d, g, newId) && OneOfTwinsSpelled(d, g, canon)
  {
    forall x, y | 0 < x < |g| && 0 < y < |g| && TwinsSpelled(d, g, x, y)
      ensures Twins(h, x, y) && g[x].Kind() == h[x].Kind()
      ensures OnlyTwinsSpelled(d, g, x) ==> OnlyTwins(h, x)
    {
      CopyAfter(d, g, ss, h, x, y);
      CopyAfter(d, g, ss, h, y, x);
      if OnlyTwinsSpelled(d, g, x) {
        OnlyTwinsAfter(d, g, ss, h, x);
      }
    }
  }
}
