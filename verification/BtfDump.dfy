/** `btf_dump__dump_type` up to printing: a depth-first traversal queues the definitions a type needs,
    each after those it needs itself. */
module BtfDump {
  import opened BtfTypes
  import opened BtfRefs
  import opened BtfOrder
  import opened BtfTraversal
  import opened BtfDumpSteps
  import opened BtfLoops
  import opened BtfOutcome
  import opened BtfOnce

  /** The references `btf_dump_mark_referenced` looks at: of a prototype, the parameters only. */
  function MarkedRefs(t: BtfType): seq<nat> {
    if t.Kind() == FWD then []
    else if t.Kind() == FUNC_PROTO then SlotRefs(t.slots)
    else Children(t)
  }

  /** One of the types below `n` refers to `id`. */
  ghost predicate IsReferenced(g: Graph, n: nat, id: nat) {
    exists i :: 1 <= i < n && i < |g| && id in MarkedRefs(g[i])
  }

  lemma ReferencedNext(g: Graph, i: nat, id: nat)
    requires 1 <= i < |g|
    ensures IsReferenced(g, i + 1, id) <==> IsReferenced(g, i, id) || id in MarkedRefs(g[i])
  {
    if IsReferenced(g, i + 1, id) {
      var x :| 1 <= x < i + 1 && x < |g| && id in MarkedRefs(g[x]);
      assert x == i || IsReferenced(g, i, id);
    }
    if IsReferenced(g, i, id) {
      var x :| 1 <= x < i && x < |g| && id in MarkedRefs(g[x]);
      assert x < i + 1 && id in MarkedRefs(g[x]);
    }
    if id in MarkedRefs(g[i]) {
      assert i < i + 1;
    }
  }

  lemma RefsInRange(g: Graph, i: nat)
    requires GoodGraph(g) && i < |g|
    ensures forall j :: 0 <= j < |MarkedRefs(g[i])| ==> MarkedRefs(g[i])[j] < |g|
  {
    assert GoodType(g[i], |g|);
    if g[i].Kind() == FUNC_PROTO {
      forall j | 0 <= j < |SlotRefs(g[i].slots)|
        ensures SlotRefs(g[i].slots)[j] < |g|
      {
        assert Children(g[i])[j + 1] == SlotRefs(g[i].slots)[j];
      }
    }
  }

  /** What "referenced from any other type" leaves out: a prototype's return type and what a forward
      declaration's unused word happens to name. */
  lemma ReferencedMeans(g: Graph, id: nat)
    requires GoodGraph(g)
    ensures IsReferenced(g, |g|, id) <==> exists i, j ::
      && 1 <= i < |g| && 0 <= j < |Children(g[i])| && Children(g[i])[j] == id
      && g[i].Kind() != FWD && (g[i].Kind() == FUNC_PROTO ==> j > 0)
  {
    forall i | 1 <= i < |g|
      ensures id in MarkedRefs(g[i]) <==> exists j ::
        && 0 <= j < |Children(g[i])| && Children(g[i])[j] == id
        && g[i].Kind() != FWD && (g[i].Kind() == FUNC_PROTO ==> j > 0)
    {
      var cs, rs := Children(g[i]), MarkedRefs(g[i]);
      if g[i].Kind() == FUNC_PROTO {
        assert cs == [g[i].sz] + rs;
        if j :| 0 <= j < |rs| && rs[j] == id {
          assert cs[j + 1] == id;
        }
      }
    }
  }

  const ENUM_RETURNED: Graph := [
    VOID_TYPE,
    BtfType(0, Info(ENUM, 0, false), 4, []),
    BtfType(0, Info(FUNC_PROTO, 0, false), 1, []),
    BtfType(0, Info(PTR, 0, false), 2, [])
  ]

  /** `enum { } (*fp)(void)`: the enum is referred to, but counts as a definition of its own. */
  lemma ReturnedEnumIsTopLevel()
    ensures GoodGraph(ENUM_RETURNED) && Children(ENUM_RETURNED[2]) == [1]
    ensures !IsReferenced(ENUM_RETURNED, |ENUM_RETURNED|, 1)
    ensures IsDef(ENUM_RETURNED, [false, false, true, false], 1)
  {
    var g := ENUM_RETURNED;
    assert g[1].Kind() == ENUM && g[2].Kind() == FUNC_PROTO && g[3].Kind() == PTR;
    assert MarkedRefs(g[1]) == [] && MarkedRefs(g[2]) == [] && MarkedRefs(g[3]) == [2];
  }


  predicate IsLeaf(k: Kind) {
    k == INT || k == FUNC || k == VAR || k == DATASEC
  }

  class Dumper {
    const types: Graph
    /** A ranking of the reference types, which C graphs have; only termination depends on it. */
    ghost const rank: seq<nat>
    var referenced: seq<bool>
    var states: seq<OrderState>
    var queue: seq<nat>
    /** The definitions `btf_dump_emit_type` was called for, in order. */
    var emitted: seq<nat>

    /** The state between calls, as long as all of them succeeded. */
    ghost predicate Valid()
      reads this
    {
      GoodGraph(types) && if states == [] then emitted == [] else Between(Work(states, emitted))
    }

    /** What holds after a call that ended in `w`. */
    ghost predicate Between(w: Work)
      requires GoodGraph(types)
      reads this`referenced
    {
      && |w.st| == |types| && w.st[0] == ORDERED && Inv(types, referenced, w.st, w.e) && ORDERING !in w.st
      && Marked(|types|)
      && (CyclesAreComposite(types, rank) ==> Steady(types, rank, w))
    }

    /** Marked is what the types below `n` refer to. */
    ghost predicate Marked(n: nat)
      reads this`referenced
    {
      && |referenced| == |types|
      && forall id :: 0 <= id < |types| ==> (referenced[id] <==> IsReferenced(types, n, id))
    }

    ghost function Now(): Work
      reads this
    {
      Work(states, emitted + queue)
    }

    ghost predicate Running()
      reads this
    {
      Prepared(types, referenced, rank, Now())
    }

    /** `btf_dump__new`. */
    constructor (g: Graph, ghost rank: seq<nat>)
      requires GoodGraph(g)
      ensures Valid() && types == g && emitted == [] && this.rank == rank
    {
      types := g;
      this.rank := rank;
      referenced, states, queue, emitted := [], [], [], [];
    }

    // -------------------------------------------------------------- the traversal

    /** `btf_dump_order_type`: 1 for a strong link, 0 for a weak one. */
    method Order(id: nat, ptr: bool) returns (err: int)
      requires Running() && id < |types|
      modifies this`states, this`queue
      ensures Outcome(err, Now()) == Traverse(types, referenced, rank, old(Now()), Place(id, ptr))
      decreases Waiting(types, states), Level(types, rank, id), 1, 1
    {
      if states[id] == ORDERED {
        return 1;
      }
      var t := types[id];
      if states[id] == ORDERING {
        if IsComposite(t.Kind()) && ptr && t.name != 0 {
          return 0;
        }
        return ELOOP;
      }
      if IsComposite(t.Kind()) && ptr && t.name != 0 {
        return 0;
      }
      Unfolds(types, referenced, rank, Now(), Place(id, ptr));
      err := OrderNew(id, ptr);
    }

    /** The calls from `id`, starting in state `w`. */
    ghost function Called(w: Work, id: nat, ptr: bool): Outcome
      requires Prepared(types, referenced, rank, w) && id < |types|
      requires IsComposite(types[id].Kind()) ==> w.st[id] == ORDERING
      reads this`referenced
    {
      Rest(types, referenced, rank, w, Place(id, ptr), 0, 0)
    }

    /** Type `id` is not ordered, and met in state `w` it must be traversed. */
    ghost predicate New(w: Work, id: nat, ptr: bool)
      reads this`referenced
    {
      Prepared(types, referenced, rank, w) && id < |types| && w.st[id] == NOT_ORDERED && !Weak(types, Place(id, ptr))
    }

    ghost function Entered(w: Work, id: nat, ptr: bool): Outcome
      requires New(w, id, ptr)
      reads this`referenced
    {
      Close(types, referenced, Place(id, ptr), Called(Open(types, w, id), id, ptr))
    }

    method OrderNew(id: nat, ptr: bool) returns (err: int)
      requires New(Now(), id, ptr)
      modifies this`states, this`queue
      ensures Outcome(err, Now()) == Entered(old(Now()), id, ptr)
      decreases Waiting(types, states), Level(types, rank, id), 1, 0
    {
      match types[id].Kind()
      case INT =>
        err := MarkLeaf(id, ptr);
      case PTR =>
        err := OrderPtr(id, ptr);
      case ARRAY =>
        err := OrderThrough(id, ptr);
      case STRUCT =>
        err := OrderComposite(id, ptr);
      case UNION =>
        err := OrderComposite(id, ptr);
      case ENUM =>
        err := OrderEnum(id, ptr);
      case FWD =>
        err := OrderEnum(id, ptr);
      case TYPEDEF =>
        err := OrderTypedef(id, ptr);
      case VOLATILE =>
        err := OrderThrough(id, ptr);
      case CONST =>
        err := OrderThrough(id, ptr);
      case RESTRICT =>
        err := OrderThrough(id, ptr);
      case FUNC_PROTO =>
        err := OrderFuncProto(id, ptr);
      case FUNC =>
        err := MarkLeaf(id, ptr);
      case VAR =>
        err := MarkLeaf(id, ptr);
      case DATASEC =>
        err := MarkLeaf(id, ptr);
      case VOID =>
        err := EINVAL;
    }

    /** Kinds that need no definition. */
    method MarkLeaf(id: nat, ptr: bool) returns (err: int)
      requires New(Now(), id, ptr) && IsLeaf(types[id].Kind())
      modifies this`states
      ensures Outcome(err, Now()) == Entered(old(Now()), id, ptr)
    {
      LeafOutcome(Now(), id, ptr);
      states := states[id := ORDERED];
      return 0;
    }

    lemma LeafOutcome(w: Work, id: nat, ptr: bool)
      requires New(w, id, ptr) && IsLeaf(types[id].Kind())
      ensures Entered(w, id, ptr) == Outcome(0, w.Mark(id, ORDERED))
    {
      assert Calls(types, Place(id, ptr)) == [];
      assert Called(w, id, ptr) == Outcome(0, w);
    }

    /** Call `j` from `p`, and what it leaves to be done. */
    method OrderCall(ghost p: Place, ghost j: nat, ghost strong: int, c: nat, through: bool) returns (err: int)
      requires Running() && p.id < |types| && j < |Calls(types, p)| && Calls(types, p)[j] == Place(c, through)
      requires strong in {0, 1} && (IsComposite(types[p.id].Kind()) ==> states[p.id] == ORDERING)
      modifies this`states, this`queue
      ensures Running() && Later(old(Now()), Now()) && err <= 1
      ensures Rest(types, referenced, rank, old(Now()), p, j, strong) == if err < 0 then Outcome(err, Now())
        else Rest(types, referenced, rank, Now(), p, j + 1, if err > 0 then 1 else strong)
      decreases WaitingAt(types, states, p.id), Level(types, rank, p.id), 0, 0
    {
      CallIsSmaller(types, rank, Now(), p, j);
      err := Order(c, through);
    }

    method OrderPtr(id: nat, ptr: bool) returns (err: int)
      requires New(Now(), id, ptr) && types[id].Kind() == PTR
      modifies this`states, this`queue
      ensures Outcome(err, Now()) == Entered(old(Now()), id, ptr)
      decreases Waiting(types, states), Level(types, rank, id), 0, 1
    {
      assert Calls(types, Place(id, ptr)) == [Place(types[id].sz, true)];
      err := OrderCall(Place(id, ptr), 0, 0, types[id].sz, true);
      states := states[id := ORDERED];
    }

    /** Arrays and modifiers. */
    method OrderThrough(id: nat, ptr: bool) returns (err: int)
      requires New(Now(), id, ptr) && (types[id].Kind() == ARRAY || IsMod(types[id].Kind()))
      modifies this`states, this`queue
      ensures Outcome(err, Now()) == Entered(old(Now()), id, ptr)
      decreases Waiting(types, states), Level(types, rank, id), 0, 1
    {
      assert GoodType(types[id], |types|);
      var c := if types[id].Kind() == ARRAY then types[id].slots[0].ref else types[id].sz;
      assert Calls(types, Place(id, ptr)) == [Place(c, ptr)];
      err := OrderCall(Place(id, ptr), 0, 0, c, ptr);
    }

    /** Enums and forward declarations: named ones, and those nothing refers to, are definitions. */
    method OrderEnum(id: nat, ptr: bool) returns (err: int)
      requires New(Now(), id, ptr) && types[id].Kind() in {ENUM, FWD}
      modifies this`states, this`queue
      ensures Outcome(err, Now()) == Entered(old(Now()), id, ptr)
    {
      assert Calls(types, Place(id, ptr)) == [];
      assert Called(Now(), id, ptr) == Outcome(0, Now());
      if types[id].name != 0 || !referenced[id] {
        Push(id);
      }
      states := states[id := ORDERED];
      return 1;
    }

    /** `btf_dump_add_emit_queue_id`. */
    method Push(id: nat)
      modifies this`queue
      ensures Now() == old(Now()).Push(id)
    {
      queue := queue + [id];
      assert emitted + queue == old(emitted + queue) + [id];
    }

    method OrderTypedef(id: nat, ptr: bool) returns (err: int)
      requires New(Now(), id, ptr) && types[id].Kind() == TYPEDEF
      modifies this`states, this`queue
      ensures Outcome(err, Now()) == Entered(old(Now()), id, ptr)
      decreases Waiting(types, states), Level(types, rank, id), 0, 1
    {
      assert Calls(types, Place(id, ptr)) == [Place(types[id].sz, ptr)];
      var isStrong := OrderCall(Place(id, ptr), 0, 0, types[id].sz, ptr);
      if isStrong < 0 {
        return isStrong;
      }
      if ptr && isStrong != 1 {
        return 0;
      }
      Push(id);
      states := states[id := ORDERED];
      return 1;
    }

    method OrderComposite(id: nat, ptr: bool) returns (err: int)
      requires New(Now(), id, ptr) && IsComposite(types[id].Kind())
      modifies this`states, this`queue
      ensures Outcome(err, Now()) == Entered(old(Now()), id, ptr)
      decreases Waiting(types, states), Level(types, rank, id), 0, 2
    {
      WaitingEntered(types, Now(), id);
      states := states[id := ORDERING];
      err := OrderMembers(id, ptr);
      if err < 0 {
        return;
      }
      if types[id].name != 0 {
        Push(id);
      }
      states := states[id := ORDERED];
      return 1;
    }

    lemma MemberCalls(id: nat, ptr: bool)
      requires GoodGraph(types) && id < |types| && IsComposite(types[id].Kind()) && !Weak(types, Place(id, ptr))
      ensures var cs := Calls(types, Place(id, ptr));
        && |cs| == |types[id].slots|
        && forall i {:trigger cs[i]} :: 0 <= i < |cs| ==> cs[i] == Place(types[id].slots[i].ref, false)
    {
      assert Children(types[id]) == SlotRefs(types[id].slots);
    }

    /** The members of a type in progress. */
    method OrderMembers(id: nat, ghost ptr: bool) returns (err: int)
      requires Running() && id < |types| && IsComposite(types[id].Kind())
      requires states[id] == ORDERING && !Weak(types, Place(id, ptr))
      modifies this`states, this`queue
      ensures Running()
      ensures var r := Called(old(Now()), id, ptr);
        Now() == r.w && (err < 0 <==> r.err < 0) && (err < 0 ==> err == r.err)
      decreases WaitingAt(types, states, id), Level(types, rank, id), 0, 1
    {
      var t := types[id];
      MemberCalls(id, ptr);
      ghost var p, w, strong, r := Place(id, ptr), Now(), 0, Called(Now(), id, ptr);
      err := 0;
      var i := 0;
      while i < |t.slots|
        invariant 0 <= i <= |t.slots| == |Calls(types, p)| && err >= 0
        invariant Running() && Later(w, Now()) && 0 <= strong <= 1
        invariant r == Rest(types, referenced, rank, Now(), p, i, strong)
      {
        WaitingShrinks(types, w, Now());
        err := OrderCall(p, i, strong, t.slots[i].ref, false);
        if err < 0 {
          return;
        }
        strong := if err > 0 then 1 else strong;
        i := i + 1;
      }
      assert r == Outcome(strong, Now());
    }

    method OrderFuncProto(id: nat, ptr: bool) returns (err: int)
      requires New(Now(), id, ptr) && types[id].Kind() == FUNC_PROTO
      modifies this`states, this`queue
      ensures Outcome(err, Now()) == Entered(old(Now()), id, ptr)
      decreases Waiting(types, states), Level(types, rank, id), 0, 3
    {
      ghost var p, w := Place(id, ptr), Now();
      ProtoCalls(id, ptr);
      err := OrderCall(p, 0, 0, types[id].sz, ptr);
      if err < 0 {
        return;
      }
      WaitingShrinks(types, w, Now());
      err := OrderParams(id, ptr, err > 0);
    }

    lemma ProtoCalls(id: nat, ptr: bool)
      requires GoodGraph(types) && id < |types| && types[id].Kind() == FUNC_PROTO
      ensures var cs := Calls(types, Place(id, ptr));
        && |cs| == |types[id].slots| + 1 && cs[0] == Place(types[id].sz, ptr)
        && forall i {:trigger cs[i + 1]} :: 0 <= i < |types[id].slots| ==>
              cs[i + 1] == Place(types[id].slots[i].ref, ptr)
    {
      assert Children(types[id]) == [types[id].sz] + SlotRefs(types[id].slots);
    }

    /** The calls for the parameters from the `i`-th on, after the return type. */
    ghost function Params(w: Work, id: nat, ptr: bool, i: nat, strong: bool): Outcome
      requires Prepared(types, referenced, rank, w) && id < |types| && types[id].Kind() == FUNC_PROTO
      requires i <= |types[id].slots|
      reads this`referenced
    {
      ProtoCalls(id, ptr);
      Rest(types, referenced, rank, w, Place(id, ptr), i + 1, if strong then 1 else 0)
    }

    lemma ParamsDone(w: Work, id: nat, ptr: bool, strong: bool)
      requires Prepared(types, referenced, rank, w) && id < |types| && types[id].Kind() == FUNC_PROTO
      ensures Params(w, id, ptr, |types[id].slots|, strong) == Outcome(if strong then 1 else 0, w)
    {
      ProtoCalls(id, ptr);
    }

    method OrderParam(id: nat, ptr: bool, i: nat, ghost strong: bool) returns (err: int)
      requires Running() && id < |types| && types[id].Kind() == FUNC_PROTO && i < |types[id].slots|
      modifies this`states, this`queue
      ensures Running() && Later(old(Now()), Now()) && err <= 1
      ensures Params(old(Now()), id, ptr, i, strong) ==
        if err < 0 then Outcome(err, Now()) else Params(Now(), id, ptr, i + 1, strong || err > 0)
      decreases Waiting(types, states), Level(types, rank, id), 0, 1
    {
      ProtoCalls(id, ptr);
      assert Calls(types, Place(id, ptr))[i + 1] == Place(types[id].slots[i].ref, ptr);
      err := OrderCall(Place(id, ptr), i + 1, if strong then 1 else 0, types[id].slots[i].ref, ptr);
    }

    /** The parameters, after the return type. */
    method OrderParams(id: nat, ptr: bool, strong: bool) returns (err: int)
      requires Running() && id < |types| && types[id].Kind() == FUNC_PROTO
      modifies this`states, this`queue
      ensures Outcome(err, Now()) == Params(old(Now()), id, ptr, 0, strong)
      decreases Waiting(types, states), Level(types, rank, id), 0, 2
    {
      ghost var w, r := Now(), Params(Now(), id, ptr, 0, strong);
      var isStrong := strong;
      var i := 0;
      while i < |types[id].slots|
        invariant 0 <= i <= |types[id].slots|
        invariant Running() && Later(w, Now()) && r == Params(Now(), id, ptr, i, isStrong)
      {
        WaitingShrinks(types, w, Now());
        err := OrderParam(id, ptr, i, isStrong);
        if err < 0 {
          return;
        }
        isStrong := isStrong || err > 0;
        i := i + 1;
      }
      ParamsDone(Now(), id, ptr, isStrong);
      err := if isStrong then 1 else 0;
    }

    // -------------------------------------------------------------- the entry point

    /** `btf_dump_mark_referenced`. */
    method MarkReferenced()
      requires GoodGraph(types)
      modifies this`referenced
      ensures Marked(|types|)
    {
      referenced := seq(|types|, i => false);
      var i := 1;
      while i < |types|
        invariant 1 <= i <= |types| && Marked(i)
      {
        RefsInRange(types, i);
        ghost var before := referenced;
        referenced := MarkRefs(referenced, MarkedRefs(types[i]));
        MarkedNext(before, i);
        i := i + 1;
      }
    }

    lemma MarkedNext(before: seq<bool>, i: nat)
      requires 1 <= i < |types| == |before| == |referenced|
      requires forall id :: 0 <= id < |types| ==> (before[id] <==> IsReferenced(types, i, id))
      requires forall id :: 0 <= id < |types| ==> (referenced[id] <==> before[id] || id in MarkedRefs(types[i]))
      ensures Marked(i + 1)
    {
      forall id | 0 <= id < |types|
        ensures referenced[id] <==> IsReferenced(types, i + 1, id)
      {
        ReferencedNext(types, i, id);
      }
    }

    /** Mark the references of one type. */
    static method MarkRefs(marks: seq<bool>, cs: seq<nat>) returns (r: seq<bool>)
      requires forall j :: 0 <= j < |cs| ==> cs[j] < |marks|
      ensures |r| == |marks| && forall id :: 0 <= id < |marks| ==> (r[id] <==> marks[id] || id in cs)
    {
      r := marks;
      var j := 0;
      while j < |cs|
        invariant 0 <= j <= |cs| && |r| == |marks|
        invariant forall id :: 0 <= id < |marks| ==> (r[id] <==> marks[id] || id in cs[..j])
      {
        r := r[cs[j] := true];
        assert cs[..j + 1] == cs[..j] + [cs[j]];
        j := j + 1;
      }
      assert cs[..j] == cs;
    }

    /** The lazy start of `btf_dump__dump_type`: void is ordered, nothing else is. */
    method Start()
      requires Valid() && states == []
      modifies this`states, this`referenced
      ensures Valid() && states != []
    {
      states := seq(|types|, i => if i == 0 then ORDERED else NOT_ORDERED);
      MarkReferenced();
      VoidIsDone();
      assert Between(Work(states, emitted));
    }

    /** Void needs nothing and leads nowhere. */
    lemma VoidIsDone()
      requires GoodGraph(types)
      ensures Done(types, referenced, [], Place(0, false)) && LoopFree(types, false, Place(0, false))
    {
      assert Next(types, Place(0, false)) == [];
      DoneStep(types, referenced, [], Place(0, false));
      LoopFreeStep(types, false, Place(0, false));
    }

    /** `btf_dump__dump_type`. As long as no call has failed, the definitions emitted so far, over all
        calls, are each preceded by those they need; no struct, union or enum is emitted twice, and only
        reentrant typedefs are. It fails exactly when the type leads to a type that is part of itself. */
    method DumpType(id: nat) returns (err: int)
      requires Valid() && CyclesAreComposite(types, rank)
      modifies this
      ensures err <= 0 && (id >= |types| ==> err == EINVAL && Valid() && emitted == old(emitted))
      ensures err == 0 ==> Valid() && states != [] && old(emitted) <= emitted
      ensures err == 0 ==> id < |types| && Done(types, referenced, emitted, Place(id, false))
      ensures err == 0 ==> OnlyReached(types, Place(id, false), old(emitted), emitted)
      ensures err == 0 && FunctionsBehindPointers(types, rank) ==> Once(types, rank, emitted)
      ensures id < |types| && err < 0 ==> err == ELOOP
      ensures id < |types| && LoopFree(types, true, Place(id, false)) ==> err == 0
      ensures id < |types| && err == 0 ==> LoopFree(types, false, Place(id, false))
      ensures id < |types| && FunctionsBehindPointers(types, rank) && !IsFunction(types, rank, Place(id, false)) ==>
        (err == 0 <==> LoopFree(types, true, Place(id, false)))
    {
      if id >= |types| {
        return EINVAL;
      }
      if states == [] {
        Start();
      }
      err := OrderFrom(id);
      if err < 0 {
        return;
      }
      EmitQueue();
      return 0;
    }

    /** The call on the type asked for, with an empty queue. */
    method OrderFrom(id: nat) returns (err: int)
      requires Valid() && states != [] && CyclesAreComposite(types, rank) && id < |types|
      modifies this`states, this`queue
      ensures err >= 0 ==> Between(Now()) && Done(types, referenced, Now().e, Place(id, false)) && emitted <= Now().e
      ensures err >= 0 ==> OnlyReached(types, Place(id, false), emitted, Now().e)
      ensures FailsOnLoops(id, err)
    {
      queue := [];
      assert Now() == Work(states, emitted);
      Outcomes(id);
      err := Order(id, false);
    }

    /** The error is the one for type loops, and it is returned exactly when `id` leads to one. */
    ghost predicate FailsOnLoops(id: nat, err: int)
      requires GoodGraph(types) && CyclesAreComposite(types, rank) && id < |types|
    {
      var p := Place(id, false);
      && (err < 0 ==> err == ELOOP)
      && (LoopFree(types, true, p) ==> err >= 0) && (err >= 0 ==> LoopFree(types, false, p))
      && (FunctionsBehindPointers(types, rank) && !IsFunction(types, rank, p) ==>
            (err >= 0 <==> LoopFree(types, true, p)))
    }

    lemma Outcomes(id: nat)
      requires Valid() && states != [] && CyclesAreComposite(types, rank) && id < |types|
      ensures var r := Traverse(types, referenced, rank, Work(states, emitted), Place(id, false));
        && (r.err >= 0 ==> Between(r.w) && Done(types, referenced, r.w.e, Place(id, false)))
        && (r.err >= 0 ==> OnlyReached(types, Place(id, false), emitted, r.w.e))
        && FailsOnLoops(id, r.err)
    {
      var w := Work(states, emitted);
      TraverseKeeps(types, referenced, rank, w, Place(id, false));
      TraverseOnce(types, referenced, rank, w, Place(id, false));
      CallReaches(types, referenced, rank, w, Place(id, false));
      SucceedsExactly(types, referenced, rank, w, id);
    }

    /** The loop that prints the queue. */
    method EmitQueue()
      modifies this`emitted
      ensures emitted == old(emitted + queue)
    {
      ghost var before := emitted;
      var i := 0;
      while i < |queue|
        invariant 0 <= i <= |queue| && emitted == before + queue[..i]
      {
        emitted := emitted + [queue[i]];
        i := i + 1;
      }
    }
  }
}
