/** When the graph check must succeed: a function from canonical types to candidate types that pairs
    equal shells whose references are equal already, or paired again. */
module BtfCopies {
  import opened BtfTypes
  import opened BtfCanon
  import opened BtfTable
  import opened Lists

  lemma AlikeMeans(a: BtfType, b: BtfType)
    requires GoodSlots(a) && GoodSlots(b) && Checkable(a.Kind())
    ensures ShallowEqual(a, b) <==> Alike(a, b)
  {
    if ShallowEqual(a, b) {
      ShallowEqualMeans(a, b);
    } else if Alike(a, b) {
      AlikeFields(a, b);
    }
  }

  lemma AlikeFields(a: BtfType, b: BtfType)
    requires GoodSlots(a) && GoodSlots(b) && Alike(a, b)
    ensures ShallowEqual(a, b)
  {
    assert a.info == Shell(a).info == Shell(b).info == b.info;
    assert a.name == Shell(a).name == Shell(b).name == b.name;
    assert |a.slots| == |Shell(a).slots| == |Shell(b).slots| == |b.slots|;
    forall i | 0 <= i < |a.slots|
      ensures a.slots[i].name == b.slots[i].name && a.slots[i].num == b.slots[i].num
    {
      assert Shell(a).slots[i] == Shell(b).slots[i];
    }
    if !SzIsRef(a.Kind()) {
      assert a.sz == Shell(a).sz == Shell(b).sz == b.sz;
    }
  }

  /** Candidate `a` and canonical `b` are the same already, or `phi` takes `b` to `a`. */
  ghost predicate Paired(map_: seq<nat>, phi: map<nat, nat>, a: nat, b: nat) {
    Root(map_, a) == Root(map_, b) || (b in phi && phi[b] == a)
  }

  ghost predicate EmbedsAt(g: Graph, map_: seq<nat>, phi: map<nat, nat>, x: nat)
    requires x in phi
  {
    var y := phi[x];
    && x < |g| && y < |g| && Alike(g[y], g[x])
    && forall j :: 0 <= j < |Children(g[x])| ==> Paired(map_, phi, Children(g[y])[j], Children(g[x])[j])
  }

  /** `phi` takes canonical types to candidates that look the same from there on. */
  ghost predicate Embeds(g: Graph, map_: seq<nat>, phi: map<nat, nat>) {
    forall x {:trigger EmbedsAt(g, map_, phi, x)} :: x in phi ==> EmbedsAt(g, map_, phi, x)
  }

  /** The hypotheses so far are pairs of `phi`. */
  ghost predicate Agrees(hm: seq<nat>, hl: seq<nat>, phi: map<nat, nat>) {
    forall i {:trigger hl[i]} :: 0 <= i < |hl| ==> hl[i] < |hm| && hl[i] in phi && phi[hl[i]] == hm[hl[i]]
  }

  ghost predicate Guides(g: Graph, map_: seq<nat>, hm: seq<nat>, hl: seq<nat>, phi: map<nat, nat>) {
    Embeds(g, map_, phi) && Agrees(hm, hl, phi)
  }

  ghost predicate GuidesTo(g: Graph, map_: seq<nat>, hm: seq<nat>, hl: seq<nat>, phi: map<nat, nat>, a: nat, b: nat) {
    Guides(g, map_, hm, hl, phi) && b in phi && phi[b] == a
  }

  lemma AgreesMore(hm: seq<nat>, hl: seq<nat>, phi: map<nat, nat>, x: nat, y: nat)
    requires Agrees(hm, hl, phi) && x < |hm| && x in phi && phi[x] == y
    ensures Agrees(hm[x := y], hl + [x], phi)
  {
  }

  /** What is recorded for a canonical type is what `phi` says. */
  lemma AgreesAt(n: nat, hm: seq<nat>, hl: seq<nat>, phi: map<nat, nat>, x: nat)
    requires GoodHypot(n, hm, hl) && Agrees(hm, hl, phi) && x < n && IsMapped(hm[x])
    ensures x in phi && phi[x] == hm[x]
  {
    assert x in hl;
    var i :| 0 <= i < |hl| && hl[i] == x;
  }

  /** A pair that `phi` must make: recorded already, or to be recorded. */
  lemma GuideStarts(g: Graph, map_: seq<nat>, hm: seq<nat>, hl: seq<nat>, phi: map<nat, nat>, a: nat, b: nat)
    requires GoodHypot(|g|, hm, hl) && b < |g| && Root(map_, a) != Root(map_, b)
    ensures Guides(g, map_, hm, hl, phi) && Paired(map_, phi, a, b) ==>
      if IsMapped(hm[b]) then hm[b] == a else GuidesTo(g, map_, hm[b := a], hl + [b], phi, a, b)
  {
    if Guides(g, map_, hm, hl, phi) && Paired(map_, phi, a, b) {
      if IsMapped(hm[b]) {
        AgreesAt(|g|, hm, hl, phi, b);
      } else {
        AgreesMore(hm, hl, phi, b, a);
      }
    }
  }

  /** Type `id` has a canonical type that it is a copy of. */
  ghost predicate CopyOf(g: Graph, map_: seq<nat>, id: nat, x: nat) {
    exists phi: map<nat, nat> :: Embeds(g, map_, phi) && x in phi && phi[x] == id
  }

  ghost predicate HasCopy(g: Graph, map_: seq<nat>, id: nat) {
    exists x :: 0 < x < |g| && x < |map_| && map_[x] == x && CopyOf(g, map_, id, x)
  }

  /** A graph check that succeeds has found such a function. */
  ghost function Recorded(hm: seq<nat>, hl: seq<nat>): (phi: map<nat, nat>)
    requires forall i :: 0 <= i < |hl| ==> hl[i] < |hm|
    ensures forall x :: x in phi <==> x in hl
    ensures forall x :: x in hl ==> phi[x] == hm[x]
  {
    map x | x in hl :: hm[x]
  }

  lemma JustifiedEmbeds(g: Graph, map_: seq<nat>, hm: seq<nat>, hl: seq<nat>)
    requires GoodGraph(g) && GoodHypot(|g|, hm, hl) && JustifiedFrom(g, map_, hm, hl, 0)
    ensures Embeds(g, map_, Recorded(hm, hl))
  {
    var phi := Recorded(hm, hl);
    forall x | x in phi
      ensures EmbedsAt(g, map_, phi, x)
    {
      JustifiedAt(g, map_, hm, hl, x);
      forall j | 0 <= j < |Children(g[x])|
        ensures Paired(map_, phi, Children(g[hm[x]])[j], Children(g[x])[j])
      {
        RecordedPair(|g|, map_, hm, hl, Children(g[hm[x]])[j], Children(g[x])[j]);
      }
    }
  }

  lemma RecordedPair(n: nat, map_: seq<nat>, hm: seq<nat>, hl: seq<nat>, a: nat, b: nat)
    requires GoodHypot(n, hm, hl) && Related(map_, hm, a, b) && a < n
    ensures Paired(map_, Recorded(hm, hl), a, b)
  {
  }

  /** Some function that makes `id` a copy of `x`, if there is one. */
  ghost function Function(g: Graph, map_: seq<nat>, id: nat, x: nat): (phi: map<nat, nat>)
    ensures CopyOf(g, map_, id, x) ==> Embeds(g, map_, phi) && x in phi && phi[x] == id
  {
    if CopyOf(g, map_, id, x) then
      var phi: map<nat, nat> :| Embeds(g, map_, phi) && x in phi && phi[x] == id;
      phi
    else map[]
  }

  lemma RecordedIsCopy(g: Graph, map_: seq<nat>, hm: seq<nat>, hl: seq<nat>, id: nat, x: nat)
    requires GoodGraph(g) && GoodHypot(|g|, hm, hl) && JustifiedFrom(g, map_, hm, hl, 0) && |map_| == |g|
    requires Related(map_, hm, id, x) && id < |g| && x < |g| && !IsMapped(map_[id]) && map_[x] == x <= MAX_NR_TYPES
    ensures CopyOf(g, map_, id, x)
  {
    JustifiedEmbeds(g, map_, hm, hl);
    assert x in Recorded(hm, hl);
  }

  lemma CopyIsShallow(g: Graph, map_: seq<nat>, id: nat, x: nat)
    requires GoodGraph(g) && id < |g| && x < |g| && IsComposite(g[id].Kind()) && GoodSlots(g[id]) && GoodSlots(g[x])
    ensures CopyOf(g, map_, id, x) ==> ShallowEqualStruct(g[id], g[x]) && Hash(g[id]) == Hash(g[x])
  {
    if CopyOf(g, map_, id, x) {
      assert EmbedsAt(g, map_, Function(g, map_, id, x), x);
      AlikeFields(g[id], g[x]);
      AlikeHash(g[id], g[x]);
    }
  }

  /** None of the first `n` candidates is one that `id` is a copy of. */
  ghost predicate NoneIsCopy(g: Graph, map_: seq<nat>, id: nat, c: seq<nat>, n: nat) {
    forall j :: 0 <= j < n && j < |c| ==> !CopyOf(g, map_, id, c[j])
  }

  lemma NoneIsCopyNext(g: Graph, map_: seq<nat>, id: nat, c: seq<nat>, n: nat)
    requires NoneIsCopy(g, map_, id, c, n) && n < |c| && !CopyOf(g, map_, id, c[n])
    ensures NoneIsCopy(g, map_, id, c, n + 1)
  {
  }

  /** What is no copy of any candidate is no copy of a canonical type. */
  lemma NoCandidate(g: Graph, map_: seq<nat>, table: seq<Cand>, id: nat, c: seq<nat>)
    requires GoodGraph(g) && GoodTable(g, map_, table) && 0 < id < |g| && GoodSlots(g[id]) && IsComposite(g[id].Kind())
    requires ChainOf(table, Hash(g[id]), c) && NoneIsCopy(g, map_, id, c, |c|)
    ensures !HasCopy(g, map_, id)
  {
    forall x | 0 < x < |g| && map_[x] == x
      ensures !CopyOf(g, map_, id, x)
    {
      assert GoodType(g[x], |g|);
      CopyIsShallow(g, map_, id, x);
      CopyKind(g, map_, id, x);
      assert CopyOf(g, map_, id, x) ==> x in c;
    }
  }

  lemma CopyKind(g: Graph, map_: seq<nat>, id: nat, x: nat)
    requires id < |g| && x < |g|
    ensures CopyOf(g, map_, id, x) ==> g[x].Kind() == g[id].Kind()
  {
    if CopyOf(g, map_, id, x) {
      assert EmbedsAt(g, map_, Function(g, map_, id, x), x);
      assert Shell(g[id]).info == g[id].info && Shell(g[x]).info == g[x].info;
    }
  }

  /** Candidate `y` is mapped if it is composite and the canonical type `x` was mapped. */
  ghost predicate MergedPair(g: Graph, map_: seq<nat>, m: seq<nat>, x: nat, y: nat) {
    x < |g| && x < |map_| && y < |m| && IsComposite(g[x].Kind()) && IsMapped(map_[x]) ==> IsMapped(m[y])
  }

  ghost predicate MergedTo(g: Graph, map_: seq<nat>, hm: seq<nat>, hl: seq<nat>, m: seq<nat>, n: nat) {
    forall i {:trigger hl[i]} :: 0 <= i < n && i < |hl| && hl[i] < |hm| ==> MergedPair(g, map_, m, hl[i], hm[hl[i]])
  }

  lemma MergedNext(g: Graph, map_: seq<nat>, hm: seq<nat>, hl: seq<nat>, m: seq<nat>, m': seq<nat>, n: nat)
    requires MergedTo(g, map_, hm, hl, m, n) && Grown(m, m') && n < |hl| && hl[n] < |hm|
    requires MergedPair(g, map_, m', hl[n], hm[hl[n]])
    ensures MergedTo(g, map_, hm, hl, m', n + 1)
  {
    forall i | 0 <= i < n + 1 && i < |hl| && hl[i] < |hm|
      ensures MergedPair(g, map_, m', hl[i], hm[hl[i]])
    {
      assert i < n ==> MergedPair(g, map_, m, hl[i], hm[hl[i]]);
    }
  }

  // ---------------------------------------------------------------- signature hashes of copies

  lemma {:induction false} SameHashSlots(h: int, a: seq<Slot>, b: seq<Slot>)
    requires |a| == |b| && forall i :: 0 <= i < |a| ==> a[i].name == b[i].name && a[i].num == b[i].num
    ensures HashSlots(h, a, false) == HashSlots(h, b, false)
    decreases |a|
  {
    if a != [] {
      SameHashSlots(HashCombine(HashCombine(h, a[0].name), a[0].num), a[1..], b[1..]);
    }
  }

  /** Structs and unions that are alike are candidates of each other. */
  lemma AlikeHash(a: BtfType, b: BtfType)
    requires GoodSlots(a) && GoodSlots(b) && IsComposite(a.Kind()) && Alike(a, b)
    ensures Hash(a) == Hash(b)
  {
    AlikeFields(a, b);
    SameHashSlots(HashCommon(a), a.slots, b.slots);
  }

  // ---------------------------------------------------------------- copies in the graph itself

  /** `id` is a copy of `x`, as far as equality of type IDs goes. */
  ghost predicate Copy(g: Graph, id: nat, x: nat) {
    CopyOf(g, [], id, x)
  }

  /** Each is a copy of the other, as isomorphic types are. */
  ghost predicate Twins(g: Graph, x: nat, y: nat) {
    Copy(g, x, y) && Copy(g, y, x)
  }

  lemma EmbedsUnder(g: Graph, map_: seq<nat>, phi: map<nat, nat>)
    requires Embeds(g, [], phi)
    ensures Embeds(g, map_, phi)
  {
    forall x | x in phi
      ensures EmbedsAt(g, map_, phi, x)
    {
      assert EmbedsAt(g, [], phi, x);
    }
  }

  lemma CopyUnder(g: Graph, map_: seq<nat>, id: nat, x: nat)
    requires Copy(g, id, x)
    ensures CopyOf(g, map_, id, x)
  {
    var phi: map<nat, nat> :| Embeds(g, [], phi) && x in phi && phi[x] == id;
    EmbedsUnder(g, map_, phi);
  }

  lemma CopyIsAlike(g: Graph, id: nat, x: nat)
    requires Copy(g, id, x)
    ensures id < |g| && x < |g| && Alike(g[id], g[x])
  {
    var phi: map<nat, nat> :| Embeds(g, [], phi) && x in phi && phi[x] == id;
    assert EmbedsAt(g, [], phi, x);
  }

  /** A copy has the same tree, to any depth. */
  lemma {:induction false} CopyUnfolds(g: Graph, phi: map<nat, nat>, x: nat, d: nat)
    requires Embeds(g, [], phi) && x in phi
    ensures Unfold(g, phi[x], d) == Unfold(g, x, d)
    decreases d
  {
    assert EmbedsAt(g, [], phi, x);
    if d > 0 {
      var y := phi[x];
      var ks, ks' := Kids(g, g[y], d - 1), Kids(g, g[x], d - 1);
      forall j | 0 <= j < |ks|
        ensures ks[j] == ks'[j]
      {
        KidAt(g, g[y], d - 1, j);
        KidAt(g, g[x], d - 1, j);
        assert Paired([], phi, Children(g[y])[j], Children(g[x])[j]);
        if Children(g[y])[j] != Children(g[x])[j] {
          CopyUnfolds(g, phi, Children(g[x])[j], d - 1);
        }
      }
      assert ks == ks';
    }
  }

  lemma CopyIsSame(g: Graph, id: nat, x: nat)
    requires Copy(g, id, x)
    ensures Same(g, x, g, id)
  {
    var phi: map<nat, nat> :| Embeds(g, [], phi) && x in phi && phi[x] == id;
    forall d: nat
      ensures Unfold(g, x, d) == Unfold(g, id, d)
    {
      CopyUnfolds(g, phi, x, d);
    }
  }

  ghost predicate OneToOne(phi: map<nat, nat>) {
    forall x, y :: x in phi && y in phi && phi[x] == phi[y] ==> x == y
  }

  ghost function Inverse(phi: map<nat, nat>): (psi: map<nat, nat>)
    requires OneToOne(phi)
    ensures forall x :: x in phi ==> phi[x] in psi && psi[phi[x]] == x
    ensures forall y :: y in psi ==> psi[y] in phi && phi[psi[y]] == y
  {
    map y | y in phi.Values :: var x :| x in phi && phi[x] == y; x
  }

  /** Isomorphic types are copies of each other. */
  lemma IsomorphicAreTwins(g: Graph, phi: map<nat, nat>, x: nat)
    requires Embeds(g, [], phi) && OneToOne(phi) && x in phi
    ensures Twins(g, x, phi[x])
  {
    var psi := Inverse(phi);
    forall y | y in psi
      ensures EmbedsAt(g, [], psi, y)
    {
      assert EmbedsAt(g, [], phi, psi[y]);
      assert Shell(g[y]).info == g[y].info && Shell(g[psi[y]]).info == g[psi[y]].info;
      forall j | 0 <= j < |Children(g[y])|
        ensures Paired([], psi, Children(g[psi[y]])[j], Children(g[y])[j])
      {
        assert Paired([], phi, Children(g[y])[j], Children(g[psi[y]])[j]);
      }
    }
    assert Embeds(g, [], psi) && phi[x] in psi && psi[phi[x]] == x;
  }

  /** Of two structs or unions that are copies of each other at most one stays canonical. */
  ghost predicate OneOfTwins(g: Graph, map_: seq<nat>) {
    |g| == |map_| && forall x, y {:trigger Twins(g, x, y)} ::
      0 < x < |g| && 0 < y < |g| && x != y && IsComposite(g[x].Kind()) && Twins(g, x, y) ==>
      map_[x] != x || map_[y] != y
  }

  /** No type became canonical. */
  ghost predicate NoNewCanonical(map_: seq<nat>, map': seq<nat>) {
    |map_| == |map'| && forall x :: 0 <= x < |map_| && map'[x] == x ==> map_[x] == x
  }

  /** What the search for a canonical type of `id` does to the map: other composite types may be mapped. */
  ghost predicate Searched(g: Graph, map_: seq<nat>, map': seq<nat>, id: nat) {
    && Grown(map_, map') && NoNewCanonical(map_, map') && OnlyComposite(g, map_, map')
    && id < |map'| && map'[id] != id
  }

  /** Settling `id` on `to`. */
  lemma SettledTwins(g: Graph, map_: seq<nat>, m: seq<nat>, id: nat, to: nat)
    requires OneOfTwins(g, map_) && NoNewCanonical(map_, m) && 0 < id < |g|
    requires HasCopy(g, map_, id) ==> to != id
    ensures OneOfTwins(g, m[id := to])
  {
    var m' := m[id := to];
    forall x, y | 0 < x < |g| && 0 < y < |g| && x != y && IsComposite(g[x].Kind()) && Twins(g, x, y)
      ensures m'[x] != x || m'[y] != y
    {
      if x == id && map_[y] == y {
        CopyUnder(g, map_, id, y);
      }
      if y == id && map_[x] == x {
        CopyUnder(g, map_, id, x);
      }
    }
  }

  /** Before the third pass no struct or union is mapped. */
  lemma TwinsAtFirst(g: Graph, map_: seq<nat>)
    requires |g| == |map_| <= MAX_NR_TYPES
    requires forall x :: 0 < x < |g| && IsComposite(g[x].Kind()) ==> !IsMapped(map_[x])
    ensures OneOfTwins(g, map_)
  {
  }

  /** Mapped types keep their canonical types. */
  ghost predicate MappedStay(map_: seq<nat>, map': seq<nat>) {
    |map_| == |map'| && forall x :: 0 <= x < |map_| && IsMapped(map_[x]) ==> map'[x] == map_[x]
  }

  lemma TwinsStay(g: Graph, map_: seq<nat>, map': seq<nat>)
    requires OneOfTwins(g, map_) && CompositesMapped(g, map_, |g|) && MappedStay(map_, map')
    ensures OneOfTwins(g, map')
  {
    forall x, y | 0 < x < |g| && 0 < y < |g| && x != y && IsComposite(g[x].Kind()) && Twins(g, x, y)
      ensures map'[x] != x || map'[y] != y
    {
      CopyIsAlike(g, x, y);
      assert Shell(g[x]).info == g[x].info && Shell(g[y]).info == g[y].info;
    }
  }

  // ---------------------------------------------------------------- what becomes of copies

  /** `canon` is a choice of canonical types, and types have one new ID exactly if they share theirs. */
  ghost predicate Folds(canon: seq<nat>, newId: seq<nat>) {
    && |canon| == |newId|
    && (forall x :: 0 <= x < |canon| ==> canon[x] < |canon| && canon[canon[x]] == canon[x])
    && (forall x, y :: 0 <= x < |canon| && 0 <= y < |canon| ==> (newId[x] == newId[y] <==> canon[x] == canon[y]))
  }

  /** The structs or unions with the tree of `x` are copies of each other. */
  ghost predicate OnlyTwins(g: Graph, x: nat) {
    forall y, z {:trigger Same(g, x, g, y), Same(g, x, g, z)} ::
      0 < y < |g| && 0 < z < |g| && y != z && Same(g, x, g, y) && Same(g, x, g, z) ==> Twins(g, y, z)
  }

  /** Then they all get one new ID. */
  ghost predicate CopiesMerged(g: Graph, newId: seq<nat>) {
    |newId| == |g| && forall x, y {:trigger Twins(g, x, y)} ::
      0 < x < |g| && 0 < y < |g| && IsComposite(g[x].Kind()) && Twins(g, x, y) && OnlyTwins(g, x) ==>
      newId[x] == newId[y]
  }

  lemma CanonicalIsSame(g: Graph, f: Graph, newId: seq<nat>, canon: seq<nat>, x: nat)
    requires Folds(canon, newId) && |newId| == |g| && x < |g|
    requires forall x :: 0 <= x < |g| ==> newId[x] < |f| && Same(f, newId[x], g, x)
    ensures Same(g, x, g, canon[x])
  {
    var c := canon[x];
    assert newId[x] == newId[c];
    forall d: nat
      ensures Unfold(g, x, d) == Unfold(g, c, d)
    {
      assert Unfold(f, newId[x], d) == Unfold(g, x, d);
      assert Unfold(f, newId[c], d) == Unfold(g, c, d);
    }
  }

  lemma TwinsMeet(g: Graph, newId: seq<nat>, canon: seq<nat>, x: nat, y: nat)
    requires Folds(canon, newId) && |newId| == |g| && OneOfTwins(g, canon) && OnlyTwins(g, x)
    requires 0 < x < |g| && 0 < y < |g| && IsComposite(g[x].Kind()) && g[0] == VOID_TYPE && canon[0] == 0
    requires Same(g, x, g, y) && Same(g, x, g, canon[x]) && Same(g, y, g, canon[y])
    ensures newId[x] == newId[y]
  {
    var a, b := canon[x], canon[y];
    SameShell(g, x, a);
    SameTrans(g, x, y, b);
    SameShell(g, x, b);
    assert a != b ==> Twins(g, a, b);
  }

  // ---------------------------------------------------------------- an example

  /** `struct s { int a; };`, twice. */
  const COPIES: Graph := [
    VOID_TYPE,
    BtfType(1, Info(INT, 0, false), 4, [Slot(0, 0, 32)]),
    BtfType(5, Info(STRUCT, 1, false), 4, [Slot(7, 1, 0)]),
    BtfType(5, Info(STRUCT, 1, false), 4, [Slot(7, 1, 0)])
  ]

  lemma TwoCopies()
    ensures GoodGraph(COPIES) && NoVarRefs(COPIES) && Twins(COPIES, 2, 3) && OnlyTwins(COPIES, 2)
    ensures forall newId: seq<nat> :: CopiesMerged(COPIES, newId) ==> newId[2] == newId[3]
  {
    var g := COPIES;
    CopiesAreGood();
    var phi := map[2 := 3];
    assert EmbedsAt(g, [], phi, 2);
    assert Embeds(g, [], phi) && OneToOne(phi);
    IsomorphicAreTwins(g, phi, 2);
    forall y, z | 0 < y < |g| && 0 < z < |g| && y != z && Same(g, 2, g, y) && Same(g, 2, g, z)
      ensures Twins(g, y, z)
    {
      SameShell(g, 2, y);
      SameShell(g, 2, z);
    }
  }

  lemma CopiesAreGood()
    ensures GoodGraph(COPIES) && NoVarRefs(COPIES)
    ensures COPIES[1].Kind() == INT && COPIES[2].Kind() == STRUCT && COPIES[3].Kind() == STRUCT
    ensures Children(COPIES[2]) == [1] == Children(COPIES[3]) && Children(COPIES[1]) == []
  {
    assert SlotRefs(COPIES[2].slots) == [1];
    forall id | 0 <= id < |COPIES|
      ensures GoodType(COPIES[id], |COPIES|)
    {
      assert id == 0 || id == 1 || id == 2 || id == 3;
    }
  }
}
