/** Signature hashes, the candidate table `dedup_table`, and what settling one type keeps. */
module BtfTable {
  import opened BtfTypes
  import opened BtfCanon
  import opened Lists

  /** An entry of `dedup_table`: a canonical type under its signature hash. */
  datatype Cand = Cand(hash: int, id: nat)

  // ---------------------------------------------------------------- signature hashes

  const LONG: nat := 0x1_0000_0000_0000_0000

  /** `hash_combine`, in 64-bit arithmetic. */
  function HashCombine(h: int, value: int): int {
    (h * 31 + value) % LONG
  }

  function KindNumber(k: Kind): nat {
    match k
    case VOID => 0 case INT => 1 case PTR => 2 case ARRAY => 3 case STRUCT => 4 case UNION => 5
    case ENUM => 6 case FWD => 7 case TYPEDEF => 8 case VOLATILE => 9 case CONST => 10
    case RESTRICT => 11 case FUNC => 12 case FUNC_PROTO => 13 case VAR => 14 case DATASEC => 15
  }

  function InfoWord(i: Info, vlen: nat): nat {
    (if i.kflag then 0x8000_0000 else 0) + KindNumber(i.kind) * 0x100_0000 + vlen
  }

  function HashCommon(t: BtfType): int {
    HashCombine(HashCombine(HashCombine(0, t.name), InfoWord(t.info, t.info.vlen)), t.sz)
  }

  function HashSlots(h: int, slots: seq<Slot>, refs: bool): int
    decreases |slots|
  {
    if slots == [] then h
    else HashSlots(HashCombine(HashCombine(h, slots[0].name), if refs then slots[0].ref else slots[0].num),
                   slots[1..], refs)
  }

  /** The hash of a type's signature: an ENUM leaves out its enumerators, a composite type the types
      of its members. */
  function Hash(t: BtfType): int
    requires GoodSlots(t)
  {
    match t.Kind()
    case INT => HashCombine(HashCommon(t), t.slots[0].num)
    case ENUM => HashCombine(HashCombine(HashCombine(0, t.name), InfoWord(t.info, 0)), t.sz)
    case STRUCT => HashSlots(HashCommon(t), t.slots, false)
    case UNION => HashSlots(HashCommon(t), t.slots, false)
    case ARRAY => HashCombine(HashCombine(HashCombine(HashCommon(t), t.slots[0].ref), t.slots[1].ref), t.slots[0].num)
    case FUNC_PROTO => HashSlots(HashCommon(t), t.slots, true)
    case _ => HashCommon(t)
  }

  // ---------------------------------------------------------------- the candidate table

  /** Kinds whose types are compared exactly, record for record. */
  predicate IsExact(k: Kind) {
    IsRef(k) || k == INT || k == ENUM || k == FWD || k == ARRAY || k == FUNC_PROTO
  }

  /** Kinds whose canonical types are candidates. */
  predicate IsListed(k: Kind) {
    IsExact(k) || IsComposite(k)
  }

  /** Candidates are canonical, every canonical type but variables and sections is a candidate under its
      hash, and no two of those that are compared exactly are equal. */
  ghost predicate GoodTable(g: Graph, map_: seq<nat>, table: seq<Cand>) {
    && |g| == |map_|
    && (forall i :: 0 <= i < |table| ==> 0 < table[i].id < |g| && map_[table[i].id] == table[i].id)
    && (forall x :: 0 < x < |g| && map_[x] == x && IsListed(g[x].Kind()) ==>
          GoodSlots(g[x]) && Cand(Hash(g[x]), x) in table)
    && (forall x, y :: 0 < x < y < |g| && map_[x] == x && map_[y] == y && IsExact(g[x].Kind()) ==> g[x] != g[y])
  }

  /** `c` lists exactly the candidates with hash `h`, in whatever order the chain holds them. */
  ghost predicate ChainOf(table: seq<Cand>, h: int, c: seq<nat>) {
    forall x :: x in c <==> Cand(h, x) in table
  }

  /** Mapped types stay mapped and canonical ones canonical. */
  ghost predicate Grown(map_: seq<nat>, map': seq<nat>) {
    && |map_| == |map'|
    && forall x :: 0 <= x < |map_| ==>
         (IsMapped(map_[x]) ==> IsMapped(map'[x])) && (map_[x] == x ==> map'[x] == x)
  }

  /** The outcome of looking for `id` among the candidates of its hash. */
  ghost predicate Chosen(g: Graph, map_: seq<nat>, table: seq<Cand>, id: nat, to: nat)
    requires id < |g| && GoodSlots(g[id])
  {
    if to == id then forall x :: 0 <= x < |g| && Cand(Hash(g[id]), x) in table ==> g[x] != g[id]
    else to < |g| && to < |map_| && map_[to] == to && g[to] == g[id]
  }

  lemma CandidateFacts(g: Graph, map_: seq<nat>, table: seq<Cand>, id: nat, c: seq<nat>)
    requires GoodGraph(g) && GoodTable(g, map_, table)
    requires 0 < id < |g| && IsExact(g[id].Kind()) && GoodSlots(g[id]) && ChainOf(table, Hash(g[id]), c)
    ensures forall i :: 0 <= i < |c| ==>
      && c[i] < |g| && map_[c[i]] == c[i] && GoodSlots(g[c[i]])
      && (EqualForDedup(g[id], g[c[i]]) <==> g[id] == g[c[i]])
  {
    forall i | 0 <= i < |c|
      ensures c[i] < |g| && map_[c[i]] == c[i] && GoodSlots(g[c[i]])
      ensures EqualForDedup(g[id], g[c[i]]) <==> g[id] == g[c[i]]
    {
      assert Cand(Hash(g[id]), c[i]) in table;
      assert GoodType(g[c[i]], |g|);
      EqualIsIdentity(g[id], g[c[i]]);
    }
  }

  lemma CompositeFacts(g: Graph, map_: seq<nat>, table: seq<Cand>, id: nat, c: seq<nat>)
    requires GoodGraph(g) && GoodTable(g, map_, table) && 0 < id < |g| && GoodSlots(g[id])
    requires ChainOf(table, Hash(g[id]), c)
    ensures forall i :: 0 <= i < |c| ==> 0 < c[i] < |g| && map_[c[i]] == c[i] && GoodSlots(g[c[i]])
  {
    forall i | 0 <= i < |c|
      ensures 0 < c[i] < |g| && map_[c[i]] == c[i] && GoodSlots(g[c[i]])
    {
      assert Cand(Hash(g[id]), c[i]) in table;
      assert GoodType(g[c[i]], |g|);
    }
  }

  lemma SettleOne(g: Graph, map_: seq<nat>, table: seq<Cand>, id: nat, to: nat, table': seq<Cand>)
    requires GoodGraph(g) && GoodMap(g, map_) && GoodTable(g, map_, table)
    requires 0 < id < |g| && !IsMapped(map_[id]) && GoodSlots(g[id]) && IsExact(g[id].Kind())
    requires Chosen(g, map_, table, id, to)
    requires table' == if to == id then [Cand(Hash(g[id]), id)] + table else table
    ensures GoodMap(g, map_[id := to]) && GoodTable(g, map_[id := to], table')
  {
    SameRecord(g, id, to);
    MapOne(g, map_, id, to);
    assert to != 0 by {
      assert g[0] == VOID_TYPE;
    }
    SettledTable(g, map_, table, id, to, table');
  }

  /** A type without an equal candidate differs from the canonical ones. */
  lemma NewIsUnequal(g: Graph, map_: seq<nat>, table: seq<Cand>, id: nat, x: nat)
    requires GoodTable(g, map_, table) && 0 < id < |g| && GoodSlots(g[id]) && IsExact(g[id].Kind())
    requires Chosen(g, map_, table, id, id) && 0 < x < |g| && map_[x] == x
    ensures g[x] != g[id]
  {
    assert IsListed(g[x].Kind()) ==> Cand(Hash(g[x]), x) in table;
  }

  lemma SettledTable(g: Graph, map_: seq<nat>, table: seq<Cand>, id: nat, to: nat, table': seq<Cand>)
    requires GoodTable(g, map_, table) && |g| <= MAX_NR_TYPES
    requires 0 < id < |g| && !IsMapped(map_[id]) && GoodSlots(g[id]) && IsExact(g[id].Kind())
    requires Chosen(g, map_, table, id, to) && to != 0
    requires table' == if to == id then [Cand(Hash(g[id]), id)] + table else table
    ensures GoodTable(g, map_[id := to], table')
  {
    forall i | 0 <= i < |table'|
      ensures 0 < table'[i].id < |g| && map_[id := to][table'[i].id] == table'[i].id
    {
      SettledCandidate(g, map_, table, id, to, table', i);
    }
    forall x | 0 < x < |g| && map_[id := to][x] == x && IsListed(g[x].Kind())
      ensures GoodSlots(g[x]) && Cand(Hash(g[x]), x) in table'
    {
      SettledListed(g, map_, table, id, to, table', x);
    }
    forall x, y | 0 < x < y < |g| && map_[id := to][x] == x && map_[id := to][y] == y && IsExact(g[x].Kind())
      ensures g[x] != g[y]
    {
      SettledDiffer(g, map_, table, id, to, x, y);
    }
  }

  lemma SettledCandidate(g: Graph, map_: seq<nat>, table: seq<Cand>, id: nat, to: nat, table': seq<Cand>, i: nat)
    requires GoodTable(g, map_, table) && |g| <= MAX_NR_TYPES && 0 < id < |g| && !IsMapped(map_[id]) && GoodSlots(g[id])
    requires table' == if to == id then [Cand(Hash(g[id]), id)] + table else table
    requires i < |table'|
    ensures 0 < table'[i].id < |g| && map_[id := to][table'[i].id] == table'[i].id
  {
    if to != id {
      assert map_[table[i].id] == table[i].id;
    } else if i > 0 {
      assert table'[i] == table[i - 1];
    }
  }

  lemma SettledListed(g: Graph, map_: seq<nat>, table: seq<Cand>, id: nat, to: nat, table': seq<Cand>, x: nat)
    requires GoodTable(g, map_, table) && 0 < id < |g| && GoodSlots(g[id])
    requires table' == if to == id then [Cand(Hash(g[id]), id)] + table else table
    requires 0 < x < |g| && map_[id := to][x] == x && IsListed(g[x].Kind())
    ensures GoodSlots(g[x]) && Cand(Hash(g[x]), x) in table'
  {
    if x == id {
      assert table'[0] == Cand(Hash(g[x]), x);
    } else {
      assert Cand(Hash(g[x]), x) in table;
    }
  }

  lemma SettledDiffer(g: Graph, map_: seq<nat>, table: seq<Cand>, id: nat, to: nat, x: nat, y: nat)
    requires GoodTable(g, map_, table) && 0 < id < |g| && GoodSlots(g[id]) && IsExact(g[id].Kind())
    requires Chosen(g, map_, table, id, to)
    requires 0 < x < y < |g| && map_[id := to][x] == x && map_[id := to][y] == y && IsExact(g[x].Kind())
    ensures g[x] != g[y]
  {
    if x == id {
      NewIsUnequal(g, map_, table, id, y);
    } else if y == id {
      NewIsUnequal(g, map_, table, id, x);
    }
  }

  /** Mapping a composite type to another settles it without touching the exact ones. */
  lemma SettleComposite(g: Graph, map_: seq<nat>, table: seq<Cand>, x: nat, to: nat)
    requires GoodMap(g, map_) && GoodTable(g, map_, table)
    requires 0 < x < |g| && to < |g| && map_[x] != x && x != to && map_[to] == to
    requires Same(g, x, g, to) && IsComposite(g[x].Kind())
    ensures GoodMap(g, map_[x := to]) && GoodTable(g, map_[x := to], table)
  {
    MapOne(g, map_, x, to);
  }

  /** A composite type that becomes canonical becomes a candidate. */
  lemma SettleNewComposite(g: Graph, map_: seq<nat>, table: seq<Cand>, x: nat)
    requires GoodMap(g, map_) && GoodTable(g, map_, table)
    requires 0 < x < |g| && map_[x] != x && IsComposite(g[x].Kind()) && GoodSlots(g[x])
    ensures GoodMap(g, map_[x := x]) && GoodTable(g, map_[x := x], [Cand(Hash(g[x]), x)] + table)
  {
    SameSelf(g, x);
    MapOne(g, map_, x, x);
    var m, table' := map_[x := x], [Cand(Hash(g[x]), x)] + table;
    forall y | 0 < y < |g| && m[y] == y && IsListed(g[y].Kind())
      ensures GoodSlots(g[y]) && Cand(Hash(g[y]), y) in table'
    {
      if y == x {
        assert table'[0] == Cand(Hash(g[x]), x);
      } else {
        assert Cand(Hash(g[y]), y) in table;
      }
    }
  }

  ghost predicate PairsSame(g: Graph, hm: seq<nat>, hl: seq<nat>) {
    forall i {:trigger hl[i]} :: 0 <= i < |hl| ==>
      hl[i] < |g| && hl[i] < |hm| && hm[hl[i]] < |g| && Same(g, hm[hl[i]], g, hl[i])
  }

  /** Only unmapped composite types were mapped, and to others. */
  ghost predicate OnlyMerged(g: Graph, map_: seq<nat>, map': seq<nat>) {
    && |g| == |map_| == |map'|
    && forall x :: 0 <= x < |map_| && map'[x] != map_[x] ==>
         !IsMapped(map_[x]) && map'[x] != x && IsComposite(g[x].Kind())
  }

  lemma OnlyMergedTrans(g: Graph, a: seq<nat>, b: seq<nat>, c: seq<nat>)
    requires OnlyMerged(g, a, b) && OnlyMerged(g, b, c)
    ensures OnlyMerged(g, a, c)
  {
  }

  /** Only entries of composite types differ. */
  ghost predicate OnlyComposite(g: Graph, map_: seq<nat>, map': seq<nat>) {
    && |g| == |map_| == |map'|
    && forall x :: 0 <= x < |map_| && !IsComposite(g[x].Kind()) ==> map'[x] == map_[x]
  }

  lemma OnlyCompositeTrans(g: Graph, a: seq<nat>, b: seq<nat>, c: seq<nat>)
    requires OnlyComposite(g, a, b) && OnlyComposite(g, b, c)
    ensures OnlyComposite(g, a, c)
  {
  }

  /** The structs and unions below `n` are mapped. */
  ghost predicate CompositesMapped(g: Graph, map_: seq<nat>, n: nat) {
    |g| == |map_| && forall x :: 0 < x < n && x < |g| && IsComposite(g[x].Kind()) ==> IsMapped(map_[x])
  }

  lemma CompositesMappedNext(g: Graph, map_: seq<nat>, map': seq<nat>, n: nat)
    requires CompositesMapped(g, map_, n) && Grown(map_, map') && n < |g|
    requires IsComposite(g[n].Kind()) ==> IsMapped(map'[n])
    ensures CompositesMapped(g, map', n + 1)
  {
  }

  lemma JustifiedPairsSame(g: Graph, map_: seq<nat>, hm: seq<nat>, hl: seq<nat>)
    requires GoodGraph(g) && GoodMap(g, map_) && GoodHypot(|g|, hm, hl) && JustifiedFrom(g, map_, hm, hl, 0)
    ensures PairsSame(g, hm, hl)
  {
    forall i | 0 <= i < |hl|
      ensures Same(g, hm[hl[i]], g, hl[i])
    {
      forall d: nat
        ensures Unfold(g, hm[hl[i]], d) == Unfold(g, hl[i], d)
      {
        BisimulationIsSound(g, map_, hm, hl, hl[i], d);
      }
    }
  }

  /** The canonical types of a pair that means the same mean the same. */
  lemma RootsOfPair(g: Graph, map_: seq<nat>, a: nat, b: nat)
    requires GoodMap(g, map_) && a < |g| && b < |g| && Same(g, a, g, b)
    ensures Root(map_, a) < |g| && Root(map_, b) < |g|
    ensures Same(g, Root(map_, a), g, Root(map_, b))
    ensures g[Root(map_, a)].Kind() == g[Root(map_, b)].Kind()
  {
    RootIs(g, map_, a);
    RootIs(g, map_, b);
    SameSym(g, a, Root(map_, a));
    SameTrans(g, Root(map_, a), a, b);
    SameTrans(g, Root(map_, a), b, Root(map_, b));
    SameShell(g, Root(map_, a), Root(map_, b));
  }
}
