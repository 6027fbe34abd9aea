/** BTF type records, the graph they form, and what a type of the graph means. */
module BtfTypes {

  datatype Kind = VOID | INT | PTR | ARRAY | STRUCT | UNION | ENUM | FWD | TYPEDEF
                | VOLATILE | CONST | RESTRICT | FUNC | FUNC_PROTO | VAR | DATASEC

  datatype Info = Info(kind: Kind, vlen: nat, kflag: bool)

  /** One record that follows a `btf_type`: an enumerator (name, value), a member (name, type,
      offset), a parameter (name, type), a section entry (type, placement), the encoding word of an
      INT, the linkage word of a VAR. An array has two: element type with the number of elements,
      then index type. */
  datatype Slot = Slot(name: nat, ref: nat, num: int)

  /** `sz` is the union of `size` and `type`. */
  datatype BtfType = BtfType(name: nat, info: Info, sz: nat, slots: seq<Slot>) {
    function Kind(): Kind {
      info.kind
    }
  }

  const VOID_TYPE := BtfType(0, Info(VOID, 0, false), 0, [])

  type Graph = seq<BtfType>

  predicate IsComposite(k: Kind) {
    k == STRUCT || k == UNION
  }

  /** Kinds that refer to one type through `sz` and have nothing else. */
  predicate IsRef(k: Kind) {
    k == CONST || k == VOLATILE || k == RESTRICT || k == PTR || k == TYPEDEF || k == FUNC
  }

  predicate SzIsRef(k: Kind) {
    IsRef(k) || k == FWD || k == FUNC_PROTO || k == VAR
  }

  predicate SlotsAreRefs(k: Kind) {
    IsComposite(k) || k == ARRAY || k == FUNC_PROTO || k == DATASEC
  }

  // ---------------------------------------------------------------- references

  function SlotRefs(slots: seq<Slot>): (r: seq<nat>)
    ensures |r| == |slots|
  {
    seq(|slots|, i requires 0 <= i < |slots| => slots[i].ref)
  }

  /** The IDs a type refers to, in the order of its fields. */
  function Children(t: BtfType): seq<nat> {
    (if SzIsRef(t.Kind()) then [t.sz] else []) + (if SlotsAreRefs(t.Kind()) then SlotRefs(t.slots) else [])
  }

  function Erased(slots: seq<Slot>): (r: seq<Slot>)
    ensures |r| == |slots|
  {
    seq(|slots|, i requires 0 <= i < |slots| => slots[i].(ref := 0))
  }

  /** A type without its references. */
  function Shell(t: BtfType): BtfType {
    t.(sz := if SzIsRef(t.Kind()) then 0 else t.sz,
       slots := if SlotsAreRefs(t.Kind()) then Erased(t.slots) else t.slots)
  }

  /** Redirect the `j`-th reference. */
  function SetChild(t: BtfType, j: nat, id: nat): BtfType
    requires j < |Children(t)|
  {
    if SzIsRef(t.Kind()) && j == 0 then t.(sz := id)
    else
      var i := if SzIsRef(t.Kind()) then j - 1 else j;
      t.(slots := t.slots[i := t.slots[i].(ref := id)])
  }

  lemma SetChildIs(t: BtfType, j: nat, id: nat)
    requires j < |Children(t)|
    ensures Shell(SetChild(t, j, id)) == Shell(t)
    ensures Children(SetChild(t, j, id)) == Children(t)[j := id]
    ensures SetChild(t, j, id).info == t.info
  {
    var u := SetChild(t, j, id);
    assert Erased(u.slots) == Erased(t.slots) || (SzIsRef(t.Kind()) && j == 0);
  }

  /** Records of the shape `btf_type_size` expects; unused words are zero. */
  ghost predicate GoodSlots(t: BtfType) {
    match t.Kind()
    case INT => |t.slots| == 1 && t.slots[0].name == 0 && t.slots[0].ref == 0
    case VAR => |t.slots| == 1 && t.slots[0].name == 0 && t.slots[0].ref == 0
    case ARRAY => |t.slots| == 2 && t.slots[0].name == 0 && t.slots[1].name == 0 && t.slots[1].num == 0
    case ENUM => |t.slots| == t.info.vlen && forall i :: 0 <= i < |t.slots| ==> t.slots[i].ref == 0
    case STRUCT => |t.slots| == t.info.vlen
    case UNION => |t.slots| == t.info.vlen
    case FUNC_PROTO => |t.slots| == t.info.vlen && forall i :: 0 <= i < |t.slots| ==> t.slots[i].num == 0
    case DATASEC => |t.slots| == t.info.vlen && forall i :: 0 <= i < |t.slots| ==> t.slots[i].name == 0
    case _ => t.slots == []
  }

  ghost predicate GoodType(t: BtfType, n: nat) {
    GoodSlots(t) && forall j :: 0 <= j < |Children(t)| ==> Children(t)[j] < n
  }

  /** Type 0 is void, no other type is, and every reference is to a type of the graph. */
  ghost predicate GoodGraph(g: Graph) {
    && |g| >= 1 && g[0] == VOID_TYPE
    && (forall id :: 1 <= id < |g| ==> g[id].Kind() != VOID)
    && (forall id {:trigger GoodType(g[id], |g|)} :: 0 <= id < |g| ==> GoodType(g[id], |g|))
  }

  // ---------------------------------------------------------------- meaning

  datatype Tree = Cut | Node(shell: BtfType, kids: seq<Tree>)

  /** The type tree of `id`, cut at depth `d`. */
  function Unfold(g: Graph, id: nat, d: nat): Tree
    decreases d, 0
  {
    if d == 0 || id >= |g| then Cut else Node(Shell(g[id]), Kids(g, g[id], d - 1))
  }

  function Kids(g: Graph, t: BtfType, d: nat): (r: seq<Tree>)
    ensures |r| == |Children(t)|
    decreases d, 1
  {
    seq(|Children(t)|, i requires 0 <= i < |Children(t)| => Unfold(g, Children(t)[i], d))
  }

  lemma KidAt(g: Graph, t: BtfType, d: nat, j: nat)
    requires j < |Children(t)|
    ensures Kids(g, t, d)[j] == Unfold(g, Children(t)[j], d)
  {
  }

  /** `a` in `g` and `b` in `h` unfold to the same, possibly infinite, type tree. */
  ghost predicate Same(g: Graph, a: nat, h: Graph, b: nat) {
    forall d: nat :: Unfold(g, a, d) == Unfold(h, b, d)
  }

  /** Every ID means the same in both graphs. */
  ghost predicate Equivalent(g: Graph, h: Graph) {
    && |g| == |h|
    && (forall x: nat, d: nat {:trigger Unfold(h, x, d)} :: Unfold(g, x, d) == Unfold(h, x, d))
  }

  /** `u` is `t` with some references redirected to types of the same meaning. */
  ghost predicate Redirected(g: Graph, t: BtfType, u: BtfType) {
    && Shell(t) == Shell(u) && |Children(t)| == |Children(u)|
    && forall j :: 0 <= j < |Children(t)| ==> Same(g, Children(t)[j], g, Children(u)[j])
  }

  lemma {:induction false} SameGraph(g: Graph, h: Graph, id: nat, d: nat)
    requires |g| == |h|
    requires forall i :: 0 <= i < |g| ==> Redirected(g, g[i], h[i])
    ensures Unfold(g, id, d) == Unfold(h, id, d)
    decreases d
  {
    if d > 0 && id < |g| {
      var cs, cs' := Children(g[id]), Children(h[id]);
      assert Redirected(g, g[id], h[id]);
      var ks, ks' := Kids(g, g[id], d - 1), Kids(h, h[id], d - 1);
      forall j | 0 <= j < |ks|
        ensures ks[j] == ks'[j]
      {
        KidAt(g, g[id], d - 1, j);
        KidAt(h, h[id], d - 1, j);
        SameAt(g, cs[j], cs'[j], d - 1);
        SameGraph(g, h, cs'[j], d - 1);
      }
      assert ks == ks';
    }
  }

  lemma SameAt(g: Graph, a: nat, b: nat, d: nat)
    requires Same(g, a, g, b)
    ensures Unfold(g, a, d) == Unfold(g, b, d)
  {
  }

  /** Redirecting one reference to a type of the same meaning changes the meaning of nothing. */
  lemma RedirectKeepsMeaning(g: Graph, id: nat, j: nat, to: nat)
    requires GoodGraph(g) && id < |g| && j < |Children(g[id])| && to < |g|
    requires Same(g, Children(g[id])[j], g, to)
    ensures GoodGraph(g[id := SetChild(g[id], j, to)])
    ensures Equivalent(g, g[id := SetChild(g[id], j, to)])
  {
    var h := g[id := SetChild(g[id], j, to)];
    SetChildIs(g[id], j, to);
    assert GoodType(g[id], |g|);
    forall i | 0 <= i < |h|
      ensures GoodType(h[i], |h|)
    {
      assert GoodType(g[i], |g|);
      if i == id {
        SetChildGood(g[id], j, to, |g|);
      }
    }
    forall i | 0 <= i < |g|
      ensures Redirected(g, g[i], h[i])
    {
    }
    forall x: nat, d: nat
      ensures Unfold(g, x, d) == Unfold(h, x, d)
    {
      SameGraph(g, h, x, d);
    }
  }

  lemma SetChildGood(t: BtfType, j: nat, to: nat, n: nat)
    requires GoodType(t, n) && j < |Children(t)| && to < n
    ensures GoodType(SetChild(t, j, to), n)
  {
    SetChildIs(t, j, to);
  }

  // ---------------------------------------------------------------- the comparisons of the source

  predicate EqualCommon(a: BtfType, b: BtfType) {
    a.name == b.name && a.info == b.info && a.sz == b.sz
  }

  /** `btf_equal_int`; the encoding words are read only when the common parts agree. */
  predicate EqualInt(a: BtfType, b: BtfType)
    requires GoodSlots(a) && GoodSlots(b) && a.Kind() == INT
  {
    EqualCommon(a, b) && a.slots[0].num == b.slots[0].num
  }

  predicate EqualEnum(a: BtfType, b: BtfType)
    requires GoodSlots(a) && GoodSlots(b) && a.Kind() == ENUM
  {
    && EqualCommon(a, b)
    && forall i :: 0 <= i < a.info.vlen ==> a.slots[i].name == b.slots[i].name && a.slots[i].num == b.slots[i].num
  }

  predicate ShallowEqualStruct(a: BtfType, b: BtfType)
    requires GoodSlots(a) && GoodSlots(b) && IsComposite(a.Kind())
  {
    && EqualCommon(a, b)
    && forall i :: 0 <= i < a.info.vlen ==> a.slots[i].name == b.slots[i].name && a.slots[i].num == b.slots[i].num
  }

  predicate EqualArray(a: BtfType, b: BtfType)
    requires GoodSlots(a) && GoodSlots(b) && a.Kind() == ARRAY
  {
    && EqualCommon(a, b)
    && a.slots[0].ref == b.slots[0].ref && a.slots[1].ref == b.slots[1].ref
    && a.slots[0].num == b.slots[0].num
  }

  predicate CompatArray(a: BtfType, b: BtfType)
    requires GoodSlots(a) && GoodSlots(b) && a.Kind() == ARRAY
  {
    EqualCommon(a, b) && a.slots[0].num == b.slots[0].num
  }

  predicate EqualFnproto(a: BtfType, b: BtfType)
    requires GoodSlots(a) && GoodSlots(b) && a.Kind() == FUNC_PROTO
  {
    && EqualCommon(a, b)
    && forall i :: 0 <= i < a.info.vlen ==> a.slots[i].name == b.slots[i].name && a.slots[i].ref == b.slots[i].ref
  }

  predicate CompatFnproto(a: BtfType, b: BtfType)
    requires GoodSlots(a) && GoodSlots(b) && a.Kind() == FUNC_PROTO
  {
    && a.name == b.name && a.info == b.info
    && forall i :: 0 <= i < a.info.vlen ==> a.slots[i].name == b.slots[i].name
  }

  /** The exact comparison a type of its kind is deduplicated with. */
  predicate EqualForDedup(a: BtfType, b: BtfType)
    requires GoodSlots(a) && GoodSlots(b)
  {
    match a.Kind()
    case INT => EqualInt(a, b)
    case ENUM => EqualEnum(a, b)
    case ARRAY => EqualArray(a, b)
    case FUNC_PROTO => EqualFnproto(a, b)
    case _ => EqualCommon(a, b)
  }

  /** For every kind but the composite ones, the comparisons leave nothing out. */
  lemma EqualIsIdentity(a: BtfType, b: BtfType)
    requires GoodSlots(a) && GoodSlots(b)
    requires !IsComposite(a.Kind()) && a.Kind() != VAR && a.Kind() != DATASEC
    ensures EqualForDedup(a, b) <==> a == b
  {
    if EqualForDedup(a, b) {
      assert |a.slots| == |b.slots|;
      assert forall i :: 0 <= i < |a.slots| ==> a.slots[i] == b.slots[i];
      assert a.slots == b.slots;
    }
  }

  /** What `btf_dedup_is_equiv` compares before it follows references: everything but them. */
  predicate ShallowEqual(a: BtfType, b: BtfType)
    requires GoodSlots(a) && GoodSlots(b)
  {
    && a.name == b.name && a.Kind() == b.Kind()
    && match a.Kind()
       case INT => EqualInt(a, b)
       case ENUM => EqualEnum(a, b)
       case FWD => EqualCommon(a, b)
       case ARRAY => CompatArray(a, b)
       case STRUCT => ShallowEqualStruct(a, b)
       case UNION => ShallowEqualStruct(a, b)
       case FUNC_PROTO => CompatFnproto(a, b)
       case _ => IsRef(a.Kind()) && a.info == b.info
  }

  lemma ShallowEqualMeans(a: BtfType, b: BtfType)
    requires GoodSlots(a) && GoodSlots(b) && ShallowEqual(a, b)
    ensures Shell(a) == Shell(b) && |Children(a)| == |Children(b)|
  {
    assert |a.slots| == |b.slots|;
    if SlotsAreRefs(a.Kind()) {
      assert forall i :: 0 <= i < |a.slots| ==> Erased(a.slots)[i] == Erased(b.slots)[i];
      assert Erased(a.slots) == Erased(b.slots);
    } else {
      assert forall i :: 0 <= i < |a.slots| ==> a.slots[i] == b.slots[i];
      assert a.slots == b.slots;
    }
  }
}
