/** Definitions are queued in the order in which the members ask for them. */
module BtfInOrder {
  import opened BtfTypes
  import opened BtfRefs
  import opened BtfOrder
  import opened BtfTraversal
  import opened BtfLoops
  import opened BtfDumpSteps
  import opened BtfOnce

  /** From position `a` to position `b` queue `e` serves `link`: then it has what it needs, and nothing was
      queued for the first time but what it leads to. */
  ghost predicate Serves(g: Graph, referenced: seq<bool>, link: Place, e: seq<nat>, a: nat, b: nat)
    requires GoodGraph(g) && link.id < |g|
  {
    a <= b <= |e| && Done(g, referenced, e[..b], link) && OnlyReached(g, link, e[..a], e[..b])
  }

  /** Queue `e` falls into stretches, marked by their ends, that serve the links in order. */
  ghost predicate Stretches(g: Graph, referenced: seq<bool>, links: seq<Place>, e: seq<nat>, marks: seq<nat>)
    requires GoodGraph(g) && InRange(g, links)
    decreases |links|
  {
    && |marks| == |links| + 1 && marks[0] <= |e|
    && (links != [] ==>
          Serves(g, referenced, links[0], e, marks[0], marks[1])
          && Stretches(g, referenced, links[1..], e, marks[1..]))
  }

  lemma {:induction false} StretchesLonger(g: Graph, referenced: seq<bool>, links: seq<Place>, e: seq<nat>, f: seq<nat>,
                                           marks: seq<nat>)
    requires GoodGraph(g) && InRange(g, links) && Stretches(g, referenced, links, e, marks) && e <= f
    ensures Stretches(g, referenced, links, f, marks)
    decreases |links|
  {
    if links != [] {
      assert f[..marks[0]] == e[..marks[0]] && f[..marks[1]] == e[..marks[1]];
      StretchesLonger(g, referenced, links[1..], e, f, marks[1..]);
    }
  }

  lemma ServesOne(g: Graph, referenced: seq<bool>, link: Place, a: seq<nat>, b: seq<nat>, e: seq<nat>)
    requires GoodGraph(g) && link.id < |g| && a <= b <= e
    requires Done(g, referenced, b, link) && OnlyReached(g, link, a, b)
    ensures Serves(g, referenced, link, e, |a|, |b|)
  {
    assert e[..|a|] == a && e[..|b|] == b;
  }

  lemma StretchesFirst(g: Graph, referenced: seq<bool>, links: seq<Place>, a: nat, e: seq<nat>, marks: seq<nat>)
    requires GoodGraph(g) && InRange(g, links) && links != []
    requires Stretches(g, referenced, links[1..], e, marks) && Serves(g, referenced, links[0], e, a, marks[0])
    ensures Stretches(g, referenced, links, e, [a] + marks)
  {
    assert ([a] + marks)[1..] == marks;
  }

  lemma CallFirst(g: Graph, referenced: seq<bool>, links: seq<Place>, a: seq<nat>, b: seq<nat>, e: seq<nat>,
                  marks: seq<nat>)
    requires GoodGraph(g) && InRange(g, links) && links != [] && a <= b <= e
    requires Done(g, referenced, b, links[0]) && OnlyReached(g, links[0], a, b)
    requires Stretches(g, referenced, links[1..], e, marks) && marks[0] == |b|
    ensures Stretches(g, referenced, links, e, [|a|] + marks)
  {
    ServesOne(g, referenced, links[0], a, b, e);
    StretchesFirst(g, referenced, links, |a|, e, marks);
  }

  /** One call, and what it leaves for the rest. */
  lemma CallServes(g: Graph, referenced: seq<bool>, rank: seq<nat>, w: Work, c: Place)
    requires Prepared(g, referenced, rank, w) && c.id < |g| && Inv(g, referenced, w.st, w.e) && QueuedTypedefs(g, w)
    ensures var r := Traverse(g, referenced, rank, w, c);
      && QueuedTypedefs(g, r.w)
      && (r.err >= 0 ==>
            && Inv(g, referenced, r.w.st, r.w.e) && w.e <= r.w.e
            && Done(g, referenced, r.w.e, c) && OnlyReached(g, c, w.e, r.w.e))
  {
    TraverseKeeps(g, referenced, rank, w, c);
    CallQueues(g, referenced, rank, w, c);
    CallReaches(g, referenced, rank, w, c);
  }

  function Marks(e: seq<nat>, rest: seq<nat>): seq<nat> {
    [|e|] + rest
  }

  lemma NextInOrder(g: Graph, referenced: seq<bool>, rank: seq<nat>, w: Work, p: Place, j: nat, e: seq<nat>,
                    rest: seq<nat>)
    requires Prepared(g, referenced, rank, w) && p.id < |g| && Inv(g, referenced, w.st, w.e) && QueuedTypedefs(g, w)
    requires j < |Calls(g, p)| && Traverse(g, referenced, rank, w, Calls(g, p)[j]).err >= 0
    requires Traverse(g, referenced, rank, w, Calls(g, p)[j]).w.e <= e
    requires Stretches(g, referenced, Out(g, true, p)[j + 1..], e, rest)
    requires rest[0] == |Traverse(g, referenced, rank, w, Calls(g, p)[j]).w.e|
    ensures Stretches(g, referenced, Out(g, true, p)[j..], e, Marks(w.e, rest))
  {
    var links, c := Out(g, true, p)[j..], Calls(g, p)[j];
    CallServes(g, referenced, rank, w, c);
    assert links[1..] == Out(g, true, p)[j + 1..];
    CallFirst(g, referenced, links, w.e, Traverse(g, referenced, rank, w, c).w.e, e, rest);
  }

  lemma {:induction false} RestInOrder(g: Graph, referenced: seq<bool>, rank: seq<nat>, w: Work, p: Place, j: nat,
                                       strong: int) returns (marks: seq<nat>)
    requires Entered(g, referenced, rank, w, p, j, strong) && Inv(g, referenced, w.st, w.e) && QueuedTypedefs(g, w)
    requires Rest(g, referenced, rank, w, p, j, strong).err >= 0
    ensures Stretches(g, referenced, Out(g, true, p)[j..], Rest(g, referenced, rank, w, p, j, strong).w.e, marks)
    ensures marks[0] == |w.e|
    decreases |Calls(g, p)| - j
  {
    if j == |Calls(g, p)| {
      marks := Marks(w.e, []);
    } else {
      var r := Traverse(g, referenced, rank, w, Calls(g, p)[j]);
      RestUnfolds(g, referenced, rank, w, p, j, strong);
      CallServes(g, referenced, rank, w, Calls(g, p)[j]);
      var rest := RestInOrder(g, referenced, rank, r.w, p, j + 1, if r.err > 0 then 1 else strong);
      NextInOrder(g, referenced, rank, w, p, j, Rest(g, referenced, rank, w, p, j, strong).w.e, rest);
      marks := Marks(w.e, rest);
    }
  }

  /** A successful call at a place that is not settled yet serves its links in order: members of a struct or
      union in the order of their fields, the return type of a prototype before its parameters. */
  lemma CallsInOrder(g: Graph, referenced: seq<bool>, rank: seq<nat>, w: Work, p: Place) returns (marks: seq<nat>)
    requires Prepared(g, referenced, rank, w) && p.id < |g| && Inv(g, referenced, w.st, w.e) && QueuedTypedefs(g, w)
    requires w.st[p.id] == NOT_ORDERED && !Weak(g, p) && Traverse(g, referenced, rank, w, p).err >= 0
    ensures Stretches(g, referenced, Out(g, true, p), Traverse(g, referenced, rank, w, p).w.e, marks)
    ensures marks[0] == |w.e|
  {
    var o := Open(g, w, p.id);
    Unfolds(g, referenced, rank, w, p);
    OpenKeeps(g, referenced, w, p.id);
    OpenQueues(g, w, p.id);
    var r := Rest(g, referenced, rank, o, p, 0, 0);
    marks := RestInOrder(g, referenced, rank, o, p, 0, 0);
    assert Out(g, true, p)[0..] == Out(g, true, p);
    CloseQueues(g, referenced, p, r);
    StretchesLonger(g, referenced, Out(g, true, p), r.w.e, Traverse(g, referenced, rank, w, p).w.e, marks);
  }

  lemma OpenQueues(g: Graph, w: Work, id: nat)
    requires id < |g| == |w.st| && QueuedTypedefs(g, w)
    ensures QueuedTypedefs(g, Open(g, w, id)) && Open(g, w, id).e == w.e
  {
  }

  lemma CloseQueues(g: Graph, referenced: seq<bool>, p: Place, r: Outcome)
    requires p.id < |g| == |r.w.st| == |referenced|
    ensures r.w.e <= Close(g, referenced, p, r).w.e
    ensures Close(g, referenced, p, r).err >= 0 && g[p.id].Kind() != VOID ==> r.err >= 0
  {
  }
}
