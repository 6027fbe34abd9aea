/** The places of a type graph that refer to strings, and what the graph means with its names spelled
    out. */
module BtfNames {
  import opened BtfTypes
  import opened BtfStrings

  predicate HasNamedSlots(k: Kind) {
    IsComposite(k) || k == ENUM || k == FUNC_PROTO
  }

  /** The string offsets of a type, in the order `btf_for_each_str_off` visits them. */
  function Names(t: BtfType): (r: seq<nat>)
    ensures |r| > 0 && r[0] == t.name
  {
    [t.name] + if HasNamedSlots(t.Kind()) then SlotNames(t.slots) else []
  }

  function SlotNames(slots: seq<Slot>): (r: seq<nat>)
    ensures |r| == |slots| && forall i :: 0 <= i < |slots| ==> r[i] == slots[i].name
  {
    seq(|slots|, i requires 0 <= i < |slots| => slots[i].name)
  }

  function SetName(t: BtfType, j: nat, off: nat): BtfType
    requires j < |Names(t)|
  {
    if j == 0 then t.(name := off) else t.(slots := t.slots[j - 1 := t.slots[j - 1].(name := off)])
  }

  lemma SetNameIs(t: BtfType, j: nat, off: nat)
    requires j < |Names(t)|
    ensures Names(SetName(t, j, off)) == Names(t)[j := off]
    ensures Unnamed(SetName(t, j, off)) == Unnamed(t)
  {
    var u := SetName(t, j, off);
    assert UnnamedSlots(u.slots) == UnnamedSlots(t.slots);
  }

  function UnnamedSlots(slots: seq<Slot>): (r: seq<Slot>)
    ensures |r| == |slots|
  {
    seq(|slots|, i requires 0 <= i < |slots| => slots[i].(name := 0))
  }

  /** A type without its names. */
  function Unnamed(t: BtfType): BtfType {
    t.(name := 0, slots := UnnamedSlots(t.slots))
  }

  lemma UnnamedChildren(t: BtfType, u: BtfType)
    requires Unnamed(t) == Unnamed(u)
    ensures Children(t) == Children(u) && t.info == u.info && |t.slots| == |u.slots|
    ensures t.sz == u.sz
    ensures forall i :: 0 <= i < |t.slots| ==> t.slots[i].ref == u.slots[i].ref && t.slots[i].num == u.slots[i].num
  {
    assert Unnamed(t).info == Unnamed(u).info && Unnamed(t).sz == Unnamed(u).sz;
    assert |Unnamed(t).slots| == |Unnamed(u).slots|;
    forall i | 0 <= i < |t.slots|
      ensures t.slots[i].ref == u.slots[i].ref && t.slots[i].num == u.slots[i].num
    {
      assert Unnamed(t).slots[i] == Unnamed(u).slots[i];
    }
    assert SlotRefs(t.slots) == SlotRefs(u.slots);
  }

  // ---------------------------------------------------------------- spelling

  datatype SpelledSlot = SpelledSlot(name: string, ref: nat, num: int)

  datatype SpelledType = SpelledType(name: string, info: Info, sz: nat, slots: seq<SpelledSlot>)

  function SpellSlots(d: string, slots: seq<Slot>): (r: seq<SpelledSlot>)
    ensures |r| == |slots|
  {
    seq(|slots|, i requires 0 <= i < |slots| => SpelledSlot(StrAt(d, slots[i].name), slots[i].ref, slots[i].num))
  }

  function Spell(d: string, t: BtfType): SpelledType {
    SpelledType(StrAt(d, t.name), t.info, t.sz, SpellSlots(d, t.slots))
  }

  datatype NamedTree = NamedCut | NamedNode(shell: SpelledType, kids: seq<NamedTree>)

  /** A type tree with every name spelled out. */
  function Spelling(d: string, t: Tree): NamedTree {
    match t
    case Cut => NamedCut
    case Node(shell, kids) =>
      NamedNode(Spell(d, shell), seq(|kids|, i requires 0 <= i < |kids| => Spelling(d, kids[i])))
  }

  /** The same names mean the same spelled shells. */
  lemma SpellShell(d: string, t: BtfType, e: string, u: BtfType)
    requires Unnamed(t) == Unnamed(u) && GoodSlots(t)
    requires |Names(t)| == |Names(u)|
    requires forall j :: 0 <= j < |Names(t)| ==> StrAt(d, Names(t)[j]) == StrAt(e, Names(u)[j])
    requires !HasNamedSlots(t.Kind()) ==> SlotNames(t.slots) == SlotNames(u.slots)
    requires StrAt(d, 0) == StrAt(e, 0)
    ensures Spell(d, Shell(t)) == Spell(e, Shell(u))
  {
    UnnamedChildren(t, u);
    var a, b := Shell(t), Shell(u);
    assert StrAt(d, Names(t)[0]) == StrAt(e, Names(u)[0]);
    forall i | 0 <= i < |a.slots|
      ensures SpellSlots(d, a.slots)[i] == SpellSlots(e, b.slots)[i]
    {
      if HasNamedSlots(t.Kind()) {
        assert Names(t)[i + 1] == t.slots[i].name && Names(u)[i + 1] == u.slots[i].name;
      } else {
        assert SlotNames(t.slots)[i] == SlotNames(u.slots)[i];
        assert t.slots[i].name == 0;
      }
    }
    assert SpellSlots(d, a.slots) == SpellSlots(e, b.slots);
  }

  /** Two graphs whose types differ only in where their names are stored. */
  ghost predicate SameSpelling(d: string, g: Graph, e: string, h: Graph) {
    && |g| == |h|
    && forall id {:trigger g[id]} {:trigger h[id]} :: 0 <= id < |g| ==>
         Children(g[id]) == Children(h[id]) && Spell(d, Shell(g[id])) == Spell(e, Shell(h[id]))
  }

  lemma {:induction false} SpellingSame(d: string, g: Graph, e: string, h: Graph, id: nat, depth: nat)
    requires SameSpelling(d, g, e, h)
    ensures Spelling(d, Unfold(g, id, depth)) == Spelling(e, Unfold(h, id, depth))
    decreases depth
  {
    if depth > 0 && id < |g| {
      var ks, ks' := Kids(g, g[id], depth - 1), Kids(h, h[id], depth - 1);
      assert Children(g[id]) == Children(h[id]);
      forall j | 0 <= j < |ks|
        ensures Spelling(d, ks[j]) == Spelling(e, ks'[j])
      {
        KidAt(g, g[id], depth - 1, j);
        KidAt(h, h[id], depth - 1, j);
        SpellingSame(d, g, e, h, Children(g[id])[j], depth - 1);
      }
      SpellNode(d, Shell(g[id]), ks, e, Shell(h[id]), ks');
    }
  }

  lemma SpellNode(d: string, t: BtfType, ks: seq<Tree>, e: string, u: BtfType, ks': seq<Tree>)
    requires Spell(d, t) == Spell(e, u) && |ks| == |ks'|
    requires forall j :: 0 <= j < |ks| ==> Spelling(d, ks[j]) == Spelling(e, ks'[j])
    ensures Spelling(d, Node(t, ks)) == Spelling(e, Node(u, ks'))
  {
  }
}
