/** `btf_dump_order_type` as a function of the states and the queue: a depth-first traversal that starts
    anew at every type that is not ordered, whichever way it is met. */
module BtfTraversal {
  import opened BtfTypes
  import opened BtfRefs
  import opened BtfOrder

  const EINVAL: int := -22
  const ELOOP: int := -40

  datatype OrderState = NOT_ORDERED | ORDERING | ORDERED

  /** The order states, and the definitions queued so far, those of earlier calls included. */
  datatype Work = Work(st: seq<OrderState>, e: seq<nat>) {
    function Mark(id: nat, s: OrderState): Work
      requires id < |st|
    {
      this.(st := st[id := s])
    }

    function Push(id: nat): Work {
      this.(e := e + [id])
    }
  }

  datatype Outcome = Outcome(err: int, w: Work)

  /** The recursive calls made from a place, in order, when none of them fails. */
  function Calls(g: Graph, p: Place): (r: seq<Place>)
    requires GoodGraph(g) && p.id < |g|
    ensures forall j :: 0 <= j < |r| ==> r[j].id < |g|
  {
    var t := g[p.id];
    assert GoodType(t, |g|);
    var cs := Children(t);
    if IsComposite(t.Kind()) then
      if Weak(g, p) then [] else Places(cs, false)
    else if t.Kind() == PTR then Places(cs, true)
    else if t.Kind() == ARRAY then [Place(cs[0], p.ptr)]
    else if IsMod(t.Kind()) || t.Kind() == TYPEDEF || t.Kind() == FUNC_PROTO then Places(cs, p.ptr)
    else []
  }

  /** A named struct or union behind a pointer: a forward declaration will do. */
  predicate Weak(g: Graph, p: Place)
    requires p.id < |g|
  {
    p.ptr && IsComposite(g[p.id].Kind()) && g[p.id].name != 0
  }

  // ---------------------------------------------------------------- why it ends

  /** Structs and unions the traversal has not entered. */
  ghost function Waiting(g: Graph, st: seq<OrderState>): set<nat> {
    set x: nat | x < |g| && x < |st| && IsComposite(g[x].Kind()) && st[x] == NOT_ORDERED
  }

  /** The same, with `id` if it is one. */
  ghost function WaitingAt(g: Graph, st: seq<OrderState>, id: nat): set<nat> {
    Waiting(g, st) + if id < |g| && IsComposite(g[id].Kind()) then {id} else {}
  }

  ghost function Level(g: Graph, rank: seq<nat>, id: nat): nat {
    if id < |g| && id < |rank| && IsRedirected(g[id].Kind()) then rank[id] + 1 else 0
  }

  lemma LevelFalls(g: Graph, rank: seq<nat>, id: nat, j: nat)
    requires GoodGraph(g) && CyclesAreComposite(g, rank)
    requires id < |g| && IsRedirected(g[id].Kind()) && j < |Children(g[id])|
    ensures Level(g, rank, Children(g[id])[j]) < Level(g, rank, id)
  {
    assert GoodType(g[id], |g|);
    assert LowRefs(g, rank, id, 0);
  }

  /** Every call from a type other than a struct or union is one level down. */
  lemma CallFalls(g: Graph, rank: seq<nat>, p: Place, j: nat)
    requires GoodGraph(g) && CyclesAreComposite(g, rank) && p.id < |g| && j < |Calls(g, p)|
    requires !IsComposite(g[p.id].Kind())
    ensures Level(g, rank, Calls(g, p)[j].id) < Level(g, rank, p.id)
  {
    assert GoodType(g[p.id], |g|);
    assert IsRedirected(g[p.id].Kind()) && j < |Children(g[p.id])| && Calls(g, p)[j].id == Children(g[p.id])[j];
    LevelFalls(g, rank, p.id, j);
  }

  ghost predicate Prepared(g: Graph, referenced: seq<bool>, rank: seq<nat>, w: Work) {
    && GoodGraph(g) && CyclesAreComposite(g, rank)
    && |w.st| == |referenced| == |g| && w.st[0] == ORDERED
  }

  /** What is ordered or in progress stays so, and what is queued stays queued. */
  ghost predicate Later(w: Work, w': Work) {
    && |w.st| == |w'.st| && w.e <= w'.e
    && (forall x {:trigger w'.st[x]} :: 0 <= x < |w.st| && w.st[x] != NOT_ORDERED ==> w'.st[x] == w.st[x])
  }

  /** The same types are in progress. */
  ghost predicate SameBusy(w: Work, w': Work) {
    |w.st| == |w'.st| && forall x :: 0 <= x < |w.st| && w'.st[x] == ORDERING ==> w.st[x] == ORDERING
  }

  lemma WaitingShrinks(g: Graph, w: Work, w': Work)
    requires Later(w, w')
    ensures Waiting(g, w'.st) <= Waiting(g, w.st)
  {
  }

  lemma WaitingEntered(g: Graph, w: Work, id: nat)
    requires id < |w.st| == |g| && w.st[id] == NOT_ORDERED && IsComposite(g[id].Kind())
    ensures WaitingAt(g, w.Mark(id, ORDERING).st, id) == Waiting(g, w.st)
    ensures id !in Waiting(g, w.Mark(id, ORDERING).st)
  {
  }

  // ---------------------------------------------------------------- the traversal

  /** Only structs and unions are marked as in progress. */
  function Open(g: Graph, w: Work, id: nat): Work
    requires id < |g| == |w.st|
  {
    if IsComposite(g[id].Kind()) then w.Mark(id, ORDERING) else w
  }

  /** What is left to do at `p` after its calls; `r` is their outcome. */
  function Close(g: Graph, referenced: seq<bool>, p: Place, r: Outcome): Outcome
    requires p.id < |g| == |r.w.st| == |referenced|
  {
    var t, id := g[p.id], p.id;
    if t.Kind() == PTR then Outcome(r.err, r.w.Mark(id, ORDERED))
    else if r.err < 0 || Through(t.Kind()) then r
    else if IsComposite(t.Kind()) then
      Outcome(1, (if t.name != 0 then r.w.Push(id) else r.w).Mark(id, ORDERED))
    else if t.Kind() == ENUM || t.Kind() == FWD then
      Outcome(1, (if t.name != 0 || !referenced[id] then r.w.Push(id) else r.w).Mark(id, ORDERED))
    else if t.Kind() == TYPEDEF then
      if p.ptr && r.err == 0 then r else Outcome(1, r.w.Push(id).Mark(id, ORDERED))
    else if t.Kind() == VOID then Outcome(EINVAL, r.w)
    else Outcome(0, r.w.Mark(id, ORDERED))
  }

  /** Kinds that pass on the outcome of their references and are never marked. */
  predicate Through(k: Kind) {
    k == ARRAY || IsMod(k) || k == FUNC_PROTO
  }

  lemma MarkLater(w: Work, o: Work, r: Work, id: nat, r': Work)
    requires id < |w.st| && w.st[id] == NOT_ORDERED && Later(o, r)
    requires o == w || o == w.Mark(id, ORDERING)
    requires r' == r.Mark(id, ORDERED) || r' == r.Push(id).Mark(id, ORDERED)
    ensures Later(w, r') && (SameBusy(o, r) ==> SameBusy(w, r'))
  {
    assert r.e <= r'.e;
    forall x | 0 <= x < |w.st| && w.st[x] != NOT_ORDERED
      ensures r'.st[x] == w.st[x]
    {
      assert r.st[x] == o.st[x];
    }
  }

  lemma CloseLater(g: Graph, referenced: seq<bool>, w: Work, p: Place, r: Outcome)
    requires p.id < |g| == |w.st| == |referenced| && p.id != 0 && w.st[p.id] == NOT_ORDERED && g[p.id].Kind() != VOID
    requires Later(Open(g, w, p.id), r.w) && r.err in {ELOOP, 0, 1} && (r.err >= 0 ==> SameBusy(Open(g, w, p.id), r.w))
    ensures var c := Close(g, referenced, p, r);
      Later(w, c.w) && c.err in {ELOOP, 0, 1} && (c.err >= 0 ==> SameBusy(w, c.w))
  {
    var c := Close(g, referenced, p, r);
    if c != r {
      MarkLater(w, Open(g, w, p.id), r.w, p.id, c.w);
    }
  }

  /** The outcome of the call at `p`. It is defined on every graph whose cycles pass through structs or
      unions, pointers or not. */
  ghost function Traverse(g: Graph, referenced: seq<bool>, rank: seq<nat>, w: Work, p: Place): (r: Outcome)
    requires Prepared(g, referenced, rank, w) && p.id < |g|
    ensures Later(w, r.w) && r.err in {ELOOP, 0, 1} && (r.err >= 0 ==> SameBusy(w, r.w))
    decreases Waiting(g, w.st), Level(g, rank, p.id), 1, 0
  {
    if w.st[p.id] == ORDERED then Outcome(1, w)
    else if Weak(g, p) then Outcome(0, w)
    else if w.st[p.id] == ORDERING then Outcome(ELOOP, w)
    else
      var o := Open(g, w, p.id);
      assert IsComposite(g[p.id].Kind()) ==> WaitingAt(g, o.st, p.id) == Waiting(g, w.st) by {
        if IsComposite(g[p.id].Kind()) {
          WaitingEntered(g, w, p.id);
        }
      }
      assert !IsComposite(g[p.id].Kind()) ==> WaitingAt(g, o.st, p.id) == Waiting(g, w.st);
      var r := Rest(g, referenced, rank, o, p, 0, 0);
      var c := Close(g, referenced, p, r);
      assert Later(w, c.w) && c.err in {ELOOP, 0, 1} && (c.err >= 0 ==> SameBusy(w, c.w)) by {
        CloseLater(g, referenced, w, p, r);
      }
      c
  }

  /** The calls from `p` on, from the `j`-th; `strong` is the strongest answer so far. */
  ghost function Rest(g: Graph, referenced: seq<bool>, rank: seq<nat>, w: Work, p: Place, j: nat,
                      strong: int): (r: Outcome)
    requires Prepared(g, referenced, rank, w) && p.id < |g| && j <= |Calls(g, p)| && strong in {0, 1}
    requires IsComposite(g[p.id].Kind()) ==> w.st[p.id] == ORDERING
    ensures Later(w, r.w) && r.err in {ELOOP, 0, 1} && (r.err >= 0 ==> SameBusy(w, r.w))
    decreases WaitingAt(g, w.st, p.id), Level(g, rank, p.id), 0, |Calls(g, p)| - j
  {
    if j == |Calls(g, p)| then Outcome(strong, w)
    else
      var c := Calls(g, p)[j];
      assert Smaller(g, rank, w, p, c) by {
        CallIsSmaller(g, rank, w, p, j);
      }
      var r := Traverse(g, referenced, rank, w, c);
      if r.err < 0 then r
      else
        assert WaitingAt(g, r.w.st, p.id) <= WaitingAt(g, w.st, p.id) by {
          WaitingShrinks(g, w, r.w);
        }
        Rest(g, referenced, rank, r.w, p, j + 1, if r.err > 0 then 1 else strong)
  }

  /** A call from `p` is smaller in the order in which the traversal ends. */
  ghost predicate Smaller(g: Graph, rank: seq<nat>, w: Work, p: Place, c: Place) {
    || Waiting(g, w.st) < WaitingAt(g, w.st, p.id)
    || (Waiting(g, w.st) == WaitingAt(g, w.st, p.id) && Level(g, rank, c.id) < Level(g, rank, p.id))
  }

  lemma CallIsSmaller(g: Graph, rank: seq<nat>, w: Work, p: Place, j: nat)
    requires GoodGraph(g) && CyclesAreComposite(g, rank) && |w.st| == |g| && p.id < |g| && j < |Calls(g, p)|
    requires IsComposite(g[p.id].Kind()) ==> w.st[p.id] == ORDERING
    ensures Smaller(g, rank, w, p, Calls(g, p)[j])
  {
    if IsComposite(g[p.id].Kind()) {
      assert p.id in WaitingAt(g, w.st, p.id) && p.id !in Waiting(g, w.st);
    } else {
      CallFalls(g, rank, p, j);
    }
  }

  // ---------------------------------------------------------------- its induction principle

  /** Answered without a call. */
  predicate AtOnce(g: Graph, w: Work, p: Place)
    requires p.id < |g| == |w.st|
  {
    w.st[p.id] != NOT_ORDERED || Weak(g, p)
  }

  function Answer(g: Graph, w: Work, p: Place): Outcome
    requires p.id < |g| == |w.st|
  {
    if w.st[p.id] == ORDERED then Outcome(1, w)
    else if Weak(g, p) then Outcome(0, w)
    else Outcome(ELOOP, w)
  }

  /** The calls from `p` are being made. */
  ghost predicate Entered(g: Graph, referenced: seq<bool>, rank: seq<nat>, w: Work, p: Place, j: nat, strong: int) {
    && Prepared(g, referenced, rank, w) && p.id < |g| && j <= |Calls(g, p)| && strong in {0, 1}
    && (IsComposite(g[p.id].Kind()) ==> w.st[p.id] == ORDERING)
  }

  /** `r` can be the outcome of work that starts in `w`. */
  ghost predicate Possible(w: Work, r: Outcome) {
    Later(w, r.w) && r.err in {ELOOP, 0, 1} && (r.err >= 0 ==> SameBusy(w, r.w))
  }

  /** A property of a call: state, place, outcome. */
  type CallProperty = (Work, Place, Outcome) -> bool

  /** A property of the rest of the calls from a place: state, place, position, answer so far, outcome. */
  type RestProperty = (Work, Place, nat, int, Outcome) -> bool

  ghost predicate HoldsAtOnce(g: Graph, referenced: seq<bool>, rank: seq<nat>, call: CallProperty) {
    forall w: Work, p: Place :: Prepared(g, referenced, rank, w) && p.id < |g| && AtOnce(g, w, p) ==>
      call(w, p, Answer(g, w, p))
  }

  ghost predicate HoldsClosing(g: Graph, referenced: seq<bool>, rank: seq<nat>, call: CallProperty,
                               rest: RestProperty) {
    forall w: Work, p: Place, r: Outcome ::
      Closing(g, referenced, rank, w, p, r) && rest(Open(g, w, p.id), p, 0, 0, r) ==>
      call(w, p, Close(g, referenced, p, r))
  }

  /** The calls from the new type `p`, met in state `w`, ended in `r`. */
  ghost predicate Closing(g: Graph, referenced: seq<bool>, rank: seq<nat>, w: Work, p: Place, r: Outcome) {
    && Prepared(g, referenced, rank, w) && p.id < |g| && !AtOnce(g, w, p)
    && g[p.id].Kind() != VOID && Possible(Open(g, w, p.id), r)
    && (Calls(g, p) == [] && !IsComposite(g[p.id].Kind()) ==> r == Outcome(0, w))
  }

  ghost predicate HoldsLast(g: Graph, referenced: seq<bool>, rank: seq<nat>, rest: RestProperty) {
    forall w: Work, p: Place, strong: int ::
      GoodGraph(g) && p.id < |g| && Entered(g, referenced, rank, w, p, |Calls(g, p)|, strong) ==>
        rest(w, p, |Calls(g, p)|, strong, Outcome(strong, w))
  }

  ghost predicate HoldsNext(g: Graph, referenced: seq<bool>, rank: seq<nat>, call: CallProperty, rest: RestProperty) {
    forall w: Work, p: Place, j: nat, strong: int, r: Outcome, r': Outcome
      {:trigger CallThenRest(g, referenced, rank, w, p, j, strong, r, r', call, rest)} ::
      CallThenRest(g, referenced, rank, w, p, j, strong, r, r', call, rest) ==> rest(w, p, j, strong, r')
  }

  /** The `j`-th call from `p` ended in `r`, and the rest of the calls, if any, in `r'`. */
  ghost predicate CallThenRest(g: Graph, referenced: seq<bool>, rank: seq<nat>, w: Work, p: Place, j: nat, strong: int,
                               r: Outcome, r': Outcome, call: CallProperty, rest: RestProperty) {
    && Entered(g, referenced, rank, w, p, j, strong) && j < |Calls(g, p)|
    && Possible(w, r) && call(w, Calls(g, p)[j], r)
    && (if r.err < 0 then r' == r else rest(r.w, p, j + 1, if r.err > 0 then 1 else strong, r'))
  }

  ghost predicate Inductive(g: Graph, referenced: seq<bool>, rank: seq<nat>, call: CallProperty, rest: RestProperty) {
    && HoldsAtOnce(g, referenced, rank, call) && HoldsClosing(g, referenced, rank, call, rest)
    && HoldsLast(g, referenced, rank, rest) && HoldsNext(g, referenced, rank, call, rest)
  }

  /** What holds of answers given at once, and is passed up by the calls, holds of every call. */
  lemma {:induction false} TraverseInduction(g: Graph, referenced: seq<bool>, rank: seq<nat>, w: Work, p: Place,
                                             call: CallProperty, rest: RestProperty)
    requires Inductive(g, referenced, rank, call, rest) && Prepared(g, referenced, rank, w) && p.id < |g|
    ensures call(w, p, Traverse(g, referenced, rank, w, p))
    decreases Waiting(g, w.st), Level(g, rank, p.id), 1, 0
  {
    if AtOnce(g, w, p) {
      assert Traverse(g, referenced, rank, w, p) == Answer(g, w, p);
    } else {
      var o := Open(g, w, p.id);
      Unfolds(g, referenced, rank, w, p);
      RestInduction(g, referenced, rank, o, p, 0, 0, call, rest);
      assert Closing(g, referenced, rank, w, p, Rest(g, referenced, rank, o, p, 0, 0));
    }
  }

  lemma {:induction false} RestInduction(g: Graph, referenced: seq<bool>, rank: seq<nat>, w: Work, p: Place, j: nat,
                                         strong: int, call: CallProperty, rest: RestProperty)
    requires Inductive(g, referenced, rank, call, rest) && Entered(g, referenced, rank, w, p, j, strong)
    ensures rest(w, p, j, strong, Rest(g, referenced, rank, w, p, j, strong))
    decreases WaitingAt(g, w.st, p.id), Level(g, rank, p.id), 0, |Calls(g, p)| - j
  {
    if j == |Calls(g, p)| {
      assert Rest(g, referenced, rank, w, p, j, strong) == Outcome(strong, w);
    } else {
      var c := Calls(g, p)[j];
      var r := Traverse(g, referenced, rank, w, c);
      RestUnfolds(g, referenced, rank, w, p, j, strong);
      TraverseInduction(g, referenced, rank, w, c, call, rest);
      if r.err >= 0 {
        RestInduction(g, referenced, rank, r.w, p, j + 1, if r.err > 0 then 1 else strong, call, rest);
      }
      var r' := Rest(g, referenced, rank, w, p, j, strong);
      assert CallThenRest(g, referenced, rank, w, p, j, strong, r, r', call, rest);
    }
  }

  /** A type that is not ordered is traversed anew: its calls, then what is left to do. */
  lemma Unfolds(g: Graph, referenced: seq<bool>, rank: seq<nat>, w: Work, p: Place)
    requires Prepared(g, referenced, rank, w) && p.id < |g| && w.st[p.id] == NOT_ORDERED && !Weak(g, p)
    ensures g[p.id].Kind() != VOID
    ensures var o := Open(g, w, p.id);
      && Prepared(g, referenced, rank, o) && WaitingAt(g, o.st, p.id) == Waiting(g, w.st)
      && (IsComposite(g[p.id].Kind()) ==> o.st[p.id] == ORDERING)
    ensures var r := Rest(g, referenced, rank, Open(g, w, p.id), p, 0, 0);
      && Traverse(g, referenced, rank, w, p) == Close(g, referenced, p, r)
      && (IsComposite(g[p.id].Kind()) ==> r.w.st[p.id] == ORDERING)
      && (Calls(g, p) == [] && !IsComposite(g[p.id].Kind()) ==> r == Outcome(0, w))
  {
    if IsComposite(g[p.id].Kind()) {
      WaitingEntered(g, w, p.id);
    }
  }

  /** The next call, and what is left after it. */
  lemma RestUnfolds(g: Graph, referenced: seq<bool>, rank: seq<nat>, w: Work, p: Place, j: nat, strong: int)
    requires Prepared(g, referenced, rank, w) && p.id < |g| && j < |Calls(g, p)| && strong in {0, 1}
    requires IsComposite(g[p.id].Kind()) ==> w.st[p.id] == ORDERING
    ensures Smaller(g, rank, w, p, Calls(g, p)[j])
    ensures var r := Traverse(g, referenced, rank, w, Calls(g, p)[j]);
      && (r.err < 0 ==> Rest(g, referenced, rank, w, p, j, strong) == r)
      && (r.err >= 0 ==>
            && Prepared(g, referenced, rank, r.w) && WaitingAt(g, r.w.st, p.id) <= WaitingAt(g, w.st, p.id)
            && (IsComposite(g[p.id].Kind()) ==> r.w.st[p.id] == ORDERING)
            && Rest(g, referenced, rank, w, p, j, strong) ==
               Rest(g, referenced, rank, r.w, p, j + 1, if r.err > 0 then 1 else strong))
  {
    CallIsSmaller(g, rank, w, p, j);
    WaitingShrinks(g, w, Traverse(g, referenced, rank, w, Calls(g, p)[j]).w);
  }

  // ---------------------------------------------------------------- types with few references

  lemma CallNone(g: Graph, referenced: seq<bool>, rank: seq<nat>, w: Work, p: Place)
    requires Prepared(g, referenced, rank, w) && p.id < |g| && !AtOnce(g, w, p) && Calls(g, p) == []
    ensures Traverse(g, referenced, rank, w, p) == Close(g, referenced, p, Outcome(0, Open(g, w, p.id)))
  {
    Unfolds(g, referenced, rank, w, p);
  }

  lemma CallOne(g: Graph, referenced: seq<bool>, rank: seq<nat>, w: Work, p: Place, r: Outcome)
    requires Prepared(g, referenced, rank, w) && p.id < |g| && !AtOnce(g, w, p) && |Calls(g, p)| == 1
    requires Prepared(g, referenced, rank, Open(g, w, p.id))
    requires r == Traverse(g, referenced, rank, Open(g, w, p.id), Calls(g, p)[0])
    ensures Traverse(g, referenced, rank, w, p) == Close(g, referenced, p, r)
  {
    Unfolds(g, referenced, rank, w, p);
    RestUnfolds(g, referenced, rank, Open(g, w, p.id), p, 0, 0);
  }

  lemma CallTwo(g: Graph, referenced: seq<bool>, rank: seq<nat>, w: Work, p: Place, a: Outcome, b: Outcome)
    requires Prepared(g, referenced, rank, w) && p.id < |g| && !AtOnce(g, w, p) && |Calls(g, p)| == 2
    requires Prepared(g, referenced, rank, Open(g, w, p.id))
    requires a == Traverse(g, referenced, rank, Open(g, w, p.id), Calls(g, p)[0]) && a.err >= 0
    requires Prepared(g, referenced, rank, a.w) && b == Traverse(g, referenced, rank, a.w, Calls(g, p)[1]) && b.err >= 0
    ensures Traverse(g, referenced, rank, w, p) ==
      Close(g, referenced, p, Outcome(if a.err > 0 || b.err > 0 then 1 else 0, b.w))
  {
    Unfolds(g, referenced, rank, w, p);
    RestUnfolds(g, referenced, rank, Open(g, w, p.id), p, 0, 0);
    RestUnfolds(g, referenced, rank, a.w, p, 1, if a.err > 0 then 1 else 0);
  }
}
