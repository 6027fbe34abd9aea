/** `list.c` on nodes that are indices into one memory: the pointer writes themselves, what they do to the
    ring they are made on, and that they leave every other ring in the same memory alone. */
module Rings {
  import opened Lists

  type Ptr = Option<nat>

  /** The `prev` and `next` of all nodes. A pointer outside the memory reads as null and writes nothing. */
  datatype Links = Links(prev: seq<Ptr>, next: seq<Ptr>) {
    function Prev(n: nat): Ptr {
      if n < |prev| then prev[n] else None
    }

    function Next(n: nat): Ptr {
      if n < |next| then next[n] else None
    }

    function SetPrev(n: nat, p: Ptr): Links {
      if n < |prev| then Links(prev[n := p], next) else this
    }

    function SetNext(n: nat, p: Ptr): Links {
      if n < |next| then Links(prev, next[n := p]) else this
    }
  }

  // ---------------------------------------------------------------- the operations

  /** `list_get_last_node`. */
  function Last(l: Links, list: Ptr): Ptr {
    match list
    case None => None
    case Some(first) => l.Prev(first)
  }

  /** `list_get_next_node`. */
  function NextNode(l: Links, list: Ptr, n: nat): Ptr {
    if l.Next(n) == list then None else l.Next(n)
  }

  /** `list_get_prev_node`. */
  function PrevNode(l: Links, list: Ptr, n: nat): Ptr {
    if Some(n) == list then None else l.Prev(n)
  }

  /** `list_prepend_node`: the memory and the list's head afterwards. */
  function Prepend(l: Links, list: Ptr, n: nat): (Links, Ptr) {
    match list
    case None => (l.SetPrev(n, Some(n)).SetNext(n, Some(n)), Some(n))
    case Some(here) =>
      var m := l.SetPrev(n, l.Prev(here)).SetNext(n, Some(here)).SetPrev(here, Some(n));
      (match m.Prev(n) case None => m case Some(q) => m.SetNext(q, Some(n)), Some(n))
  }

  /** `list_append_node`. */
  function Append(l: Links, list: Ptr, n: nat): (Links, Ptr) {
    var (m, _) := Prepend(l, list, n);
    (m, m.Next(n))
  }

  /** `list_unlink`. */
  function Remove(l: Links, list: Ptr, n: nat): (Links, Ptr) {
    if l.Next(n) == Some(n) then (Cleared(l, n), None)
    else
      var m := match l.Prev(n) case None => l case Some(q) => l.SetNext(q, l.Next(n));
      var k := match m.Next(n) case None => m case Some(q) => m.SetPrev(q, m.Prev(n));
      (Cleared(k, n), if list == Some(n) then k.Next(n) else list)
  }

  function Cleared(l: Links, n: nat): Links {
    l.SetNext(n, None).SetPrev(n, None)
  }

  /** `list_pop_first_node`, which returns the old head. */
  function PopFirst(l: Links, list: Ptr): (Links, Ptr) {
    match list
    case None => (l, None)
    case Some(n) => Remove(l, list, n)
  }

  /** The end of `cleanup_flows`: list `flags`, not empty, goes to the end of `list`. */
  function Splice(l: Links, list: Ptr, flags: Ptr): (Links, Ptr) {
    match (list, Last(l, list), flags, Last(l, flags))
    case (Some(first), Some(last), Some(firstFlag), Some(lastFlag)) =>
      (l.SetPrev(first, Some(lastFlag)).SetNext(last, Some(firstFlag))
        .SetPrev(firstFlag, Some(last)).SetNext(lastFlag, Some(first)), list)
    case _ => (l, if list == None then flags else list)
  }

  // ---------------------------------------------------------------- rings

  function After(n: nat, i: nat): nat {
    if i + 1 < n then i + 1 else 0
  }

  function Before(n: nat, i: nat): nat
    requires i < n
  {
    if i > 0 then i - 1 else n - 1
  }

  /** `list` is the head of the circular list of the nodes `s`, linked in both directions. */
  ghost predicate Ring(l: Links, list: Ptr, s: seq<nat>) {
    && |l.prev| == |l.next| && NoDup(s)
    && list == (if s == [] then None else Some(s[0]))
    && (forall i {:trigger s[i]} :: 0 <= i < |s| ==> s[i] < |l.next|)
    && (forall i {:trigger l.Next(s[i])} :: 0 <= i < |s| ==> l.Next(s[i]) == Some(s[After(|s|, i)]))
    && (forall i {:trigger l.Prev(s[i])} :: 0 <= i < |s| ==> l.Prev(s[i]) == Some(s[Before(|s|, i)]))
  }

  /** Only the links of nodes of `s` differ. */
  ghost predicate SameBut(l: Links, m: Links, s: seq<nat>) {
    && |m.prev| == |l.prev| && |m.next| == |l.next|
    && (forall x {:trigger m.Next(x)} {:trigger m.Prev(x)} :: x !in s ==>
          m.Next(x) == l.Next(x) && m.Prev(x) == l.Prev(x))
  }

  /** Rings that share no node with the changed one are rings still. */
  lemma RingFrame(l: Links, m: Links, changed: seq<nat>, list: Ptr, s: seq<nat>)
    requires Ring(l, list, s) && SameBut(l, m, changed)
    requires forall i :: 0 <= i < |s| ==> s[i] !in changed
    ensures Ring(m, list, s)
  {
    forall i | 0 <= i < |s|
      ensures m.Next(s[i]) == Some(s[After(|s|, i)]) && m.Prev(s[i]) == Some(s[Before(|s|, i)])
    {
      assert s[i] !in changed;
    }
  }

  lemma LastIs(l: Links, list: Ptr, s: seq<nat>)
    requires Ring(l, list, s)
    ensures Last(l, list) == if s == [] then None else Some(s[|s| - 1])
  {
    if s != [] {
      assert l.Prev(s[0]) == Some(s[Before(|s|, 0)]);
    }
  }

  lemma NextIs(l: Links, list: Ptr, s: seq<nat>, i: nat)
    requires Ring(l, list, s) && i < |s|
    ensures NextNode(l, list, s[i]) == if i + 1 < |s| then Some(s[i + 1]) else None
  {
    assert l.Next(s[i]) == Some(s[After(|s|, i)]);
  }

  lemma PrevIs(l: Links, list: Ptr, s: seq<nat>, i: nat)
    requires Ring(l, list, s) && i < |s|
    ensures PrevNode(l, list, s[i]) == if i > 0 then Some(s[i - 1]) else None
  {
    assert l.Prev(s[i]) == Some(s[Before(|s|, i)]);
  }

  // ---------------------------------------------------------------- prepend and append

  /** The links after a prepend to a list that was not empty. */
  lemma PrependLinks(l: Links, list: Ptr, s: seq<nat>, n: nat, x: nat)
    requires Ring(l, list, s) && s != [] && n < |l.next| && n !in s
    ensures var (m, h) := Prepend(l, list, n);
      && |m.prev| == |l.prev| && |m.next| == |l.next| && h == Some(n)
      && m.Next(x) == (if x == n then Some(s[0]) else if x == s[|s| - 1] then Some(n) else l.Next(x))
      && m.Prev(x) == (if x == n then Some(s[|s| - 1]) else if x == s[0] then Some(n) else l.Prev(x))
  {
    assert l.Prev(s[0]) == Some(s[Before(|s|, 0)]);
    assert s[|s| - 1] < |l.next| && s[0] < |l.next|;
  }

  lemma PrependRing(l: Links, list: Ptr, s: seq<nat>, n: nat)
    requires Ring(l, list, s) && n < |l.next| && n !in s
    ensures var (m, h) := Prepend(l, list, n);
      Ring(m, h, [n] + s) && SameBut(l, m, [n] + s)
  {
    var (m, h) := Prepend(l, list, n);
    var r := [n] + s;
    if s != [] {
      forall x: nat
        ensures |m.prev| == |l.prev| && |m.next| == |l.next| && h == Some(n)
        ensures m.Next(x) == (if x == n then Some(s[0]) else if x == s[|s| - 1] then Some(n) else l.Next(x))
        ensures m.Prev(x) == (if x == n then Some(s[|s| - 1]) else if x == s[0] then Some(n) else l.Prev(x))
      {
        PrependLinks(l, list, s, n, x);
      }
      LinkedAtHead(l, m, s, n);
    }
  }

  /** A ring opened between its last and its first node, with `n` put in. */
  lemma LinkedAtHead(l: Links, m: Links, s: seq<nat>, n: nat)
    requires s != [] && Ring(l, Some(s[0]), s) && n < |l.next| && n !in s
    requires |m.prev| == |l.prev| && |m.next| == |l.next|
    requires forall x: nat {:trigger m.Next(x)} ::
      m.Next(x) == (if x == n then Some(s[0]) else if x == s[|s| - 1] then Some(n) else l.Next(x))
    requires forall x: nat {:trigger m.Prev(x)} ::
      m.Prev(x) == (if x == n then Some(s[|s| - 1]) else if x == s[0] then Some(n) else l.Prev(x))
    ensures Ring(m, Some(n), [n] + s) && SameBut(l, m, [n] + s)
  {
    var r := [n] + s;
    forall i | 0 <= i < |r|
      ensures m.Next(r[i]) == Some(r[After(|r|, i)]) && m.Prev(r[i]) == Some(r[Before(|r|, i)])
    {
      if i > 0 {
        assert r[i] == s[i - 1];
        assert l.Next(s[i - 1]) == Some(s[After(|s|, i - 1)]) && l.Prev(s[i - 1]) == Some(s[Before(|s|, i - 1)]);
      }
    }
    assert forall x :: x !in r ==> x != n && x !in s;
  }

  /** Position `i` of `s + [n]` is position `After(i)` of `[n] + s`. */
  lemma TurnedAt(s: seq<nat>, n: nat, i: nat)
    requires i <= |s|
    ensures (s + [n])[i] == ([n] + s)[After(|s| + 1, i)]
    ensures After(|s| + 1, i) < |s| + 1 && Before(|s| + 1, After(|s| + 1, i)) == i == After(|s| + 1, Before(|s| + 1, i))
  {
  }

  /** A ring may be entered at its second node. */
  lemma RingTurns(l: Links, s: seq<nat>, n: nat)
    requires Ring(l, Some(n), [n] + s)
    ensures Ring(l, l.Next(n), s + [n])
  {
    var b := s + [n];
    NoDupTurns(s, n);
    HeadTurns(l, s, n);
    forall i | 0 <= i < |b|
      ensures b[i] < |l.next| && l.Next(b[i]) == Some(b[After(|b|, i)]) && l.Prev(b[i]) == Some(b[Before(|b|, i)])
    {
      RingTurnsAt(l, s, n, i);
    }
  }

  lemma HeadTurns(l: Links, s: seq<nat>, n: nat)
    requires Ring(l, Some(n), [n] + s)
    ensures l.Next(n) == Some((s + [n])[0])
  {
    var a := [n] + s;
    assert l.Next(a[0]) == Some(a[After(|a|, 0)]);
    TurnedAt(s, n, 0);
  }

  lemma NoDupTurns(s: seq<nat>, n: nat)
    requires NoDup([n] + s)
    ensures NoDup(s + [n])
  {
    var a, b := [n] + s, s + [n];
    forall i, j | 0 <= i < j < |b|
      ensures b[i] != b[j]
    {
      assert b[i] == a[i + 1];
      assert b[j] == if j < |s| then a[j + 1] else a[0];
    }
  }

  lemma RingTurnsAt(l: Links, s: seq<nat>, n: nat, i: nat)
    requires Ring(l, Some(n), [n] + s) && i <= |s|
    ensures var b := s + [n];
      b[i] < |l.next| && l.Next(b[i]) == Some(b[After(|s| + 1, i)]) && l.Prev(b[i]) == Some(b[Before(|s| + 1, i)])
  {
    var a, j := [n] + s, After(|s| + 1, i);
    TurnedAt(s, n, i);
    TurnedAt(s, n, j);
    TurnedAt(s, n, Before(|s| + 1, i));
    assert l.Next(a[j]) == Some(a[After(|s| + 1, j)]) && l.Prev(a[j]) == Some(a[Before(|s| + 1, j)]);
  }

  lemma AppendRing(l: Links, list: Ptr, s: seq<nat>, n: nat)
    requires Ring(l, list, s) && n < |l.next| && n !in s
    ensures var (m, h) := Append(l, list, n);
      Ring(m, h, s + [n]) && SameBut(l, m, s + [n])
  {
    var (m, h) := Prepend(l, list, n);
    PrependRing(l, list, s, n);
    RingTurns(m, s, n);
    forall x | x !in s + [n]
      ensures x !in [n] + s
    {
    }
  }

  // ---------------------------------------------------------------- unlink

  /** The links after an unlink from a list of two nodes or more. */
  lemma RemoveLinks(l: Links, list: Ptr, s: seq<nat>, k: nat, x: nat)
    requires Ring(l, list, s) && |s| > 1 && k < |s|
    ensures var (m, h) := Remove(l, list, s[k]);
      && |m.prev| == |l.prev| && |m.next| == |l.next|
      && h == (if k == 0 then Some(s[1]) else Some(s[0]))
      && m.Next(x) == (if x == s[k] then None else if x == s[Before(|s|, k)] then Some(s[After(|s|, k)]) else l.Next(x))
      && m.Prev(x) == (if x == s[k] then None else if x == s[After(|s|, k)] then Some(s[Before(|s|, k)]) else l.Prev(x))
  {
    var b, a := Before(|s|, k), After(|s|, k);
    assert l.Next(s[k]) == Some(s[a]) && l.Prev(s[k]) == Some(s[b]);
    assert s[a] != s[k] && s[b] != s[k] && s[a] < |l.next| && s[b] < |l.next| && s[k] < |l.next|;
  }

  lemma RemoveRing(l: Links, list: Ptr, s: seq<nat>, n: nat)
    requires Ring(l, list, s) && n in s
    ensures var (m, h) := Remove(l, list, n);
      Ring(m, h, Unlink(s, n)) && SameBut(l, m, s)
  {
    var k := IndexOf(s, n);
    var (m, h) := Remove(l, list, n);
    assert l.Next(s[k]) == Some(s[After(|s|, k)]);
    if |s| == 1 {
      assert Unlink(s, n) == [];
    } else {
      assert s[After(|s|, k)] != s[k];
      forall x: nat
        ensures |m.prev| == |l.prev| && |m.next| == |l.next| && h == (if k == 0 then Some(s[1]) else Some(s[0]))
        ensures m.Next(x) ==
          (if x == s[k] then None else if x == s[Before(|s|, k)] then Some(s[After(|s|, k)]) else l.Next(x))
        ensures m.Prev(x) ==
          (if x == s[k] then None else if x == s[After(|s|, k)] then Some(s[Before(|s|, k)]) else l.Prev(x))
      {
        RemoveLinks(l, list, s, k, x);
      }
      Bypassed(l, m, list, s, k);
    }
  }

  /** A ring with its `k`-th node left out. */
  lemma Bypassed(l: Links, m: Links, list: Ptr, s: seq<nat>, k: nat)
    requires Ring(l, list, s) && |s| > 1 && k < |s| && |m.prev| == |l.prev| && |m.next| == |l.next|
    requires forall x: nat {:trigger m.Next(x)} ::
      m.Next(x) == (if x == s[k] then None else if x == s[Before(|s|, k)] then Some(s[After(|s|, k)]) else l.Next(x))
    requires forall x: nat {:trigger m.Prev(x)} ::
      m.Prev(x) == (if x == s[k] then None else if x == s[After(|s|, k)] then Some(s[Before(|s|, k)]) else l.Prev(x))
    ensures Ring(m, Some(if k == 0 then s[1] else s[0]), RemoveAt(s, k)) && SameBut(l, m, s)
  {
    var r := RemoveAt(s, k);
    forall i | 0 <= i < |r|
      ensures m.Next(r[i]) == Some(r[After(|r|, i)]) && m.Prev(r[i]) == Some(r[Before(|r|, i)])
    {
      var j := if i < k then i else i + 1;
      assert r[i] == s[j] && l.Next(s[j]) == Some(s[After(|s|, j)]) && l.Prev(s[j]) == Some(s[Before(|s|, j)]);
    }
  }

  lemma PopRing(l: Links, list: Ptr, s: seq<nat>)
    requires Ring(l, list, s) && s != []
    ensures var (m, h) := PopFirst(l, list);
      list == Some(s[0]) && Ring(m, h, s[1..]) && SameBut(l, m, s)
  {
    RemoveRing(l, list, s, s[0]);
    UnlinkHead(s);
  }

  // ---------------------------------------------------------------- splice

  lemma SpliceLinks(l: Links, a: Ptr, s: seq<nat>, b: Ptr, t: seq<nat>, x: nat)
    requires Ring(l, a, s) && Ring(l, b, t) && s != [] && t != [] && (forall i :: 0 <= i < |t| ==> t[i] !in s)
    ensures var (m, h) := Splice(l, a, b);
      && |m.prev| == |l.prev| && |m.next| == |l.next| && h == a
      && m.Next(x) == (if x == t[|t| - 1] then Some(s[0]) else if x == s[|s| - 1] then Some(t[0]) else l.Next(x))
      && m.Prev(x) == (if x == t[0] then Some(s[|s| - 1]) else if x == s[0] then Some(t[|t| - 1]) else l.Prev(x))
  {
    LastIs(l, a, s);
    LastIs(l, b, t);
    assert s[0] < |l.next| && s[|s| - 1] < |l.next| && t[0] < |l.next| && t[|t| - 1] < |l.next|;
    assert t[0] !in s && t[|t| - 1] !in s;
  }

  lemma SpliceRing(l: Links, a: Ptr, s: seq<nat>, b: Ptr, t: seq<nat>)
    requires Ring(l, a, s) && Ring(l, b, t) && t != [] && (forall i :: 0 <= i < |t| ==> t[i] !in s)
    ensures var (m, h) := Splice(l, a, b);
      Ring(m, h, s + t) && SameBut(l, m, s + t)
  {
    var (m, h) := Splice(l, a, b);
    if s == [] {
      assert s + t == t;
    } else {
      forall x: nat
        ensures |m.prev| == |l.prev| && |m.next| == |l.next| && h == a
        ensures m.Next(x) == (if x == t[|t| - 1] then Some(s[0]) else if x == s[|s| - 1] then Some(t[0]) else l.Next(x))
        ensures m.Prev(x) == (if x == t[0] then Some(s[|s| - 1]) else if x == s[0] then Some(t[|t| - 1]) else l.Prev(x))
      {
        SpliceLinks(l, a, s, b, t, x);
      }
      Joined(l, m, a, s, b, t);
    }
  }

  /** Two rings that lead into each other are one. */
  lemma Joined(l: Links, m: Links, a: Ptr, s: seq<nat>, b: Ptr, t: seq<nat>)
    requires Ring(l, a, s) && Ring(l, b, t) && s != [] && t != [] && (forall i :: 0 <= i < |t| ==> t[i] !in s)
    requires |m.prev| == |l.prev| && |m.next| == |l.next|
    requires forall x: nat {:trigger m.Next(x)} ::
      m.Next(x) == (if x == t[|t| - 1] then Some(s[0]) else if x == s[|s| - 1] then Some(t[0]) else l.Next(x))
    requires forall x: nat {:trigger m.Prev(x)} ::
      m.Prev(x) == (if x == t[0] then Some(s[|s| - 1]) else if x == s[0] then Some(t[|t| - 1]) else l.Prev(x))
    ensures Ring(m, a, s + t) && SameBut(l, m, s + t)
  {
    var r := s + t;
    forall i | 0 <= i < |r|
      ensures m.Next(r[i]) == Some(r[After(|r|, i)]) && m.Prev(r[i]) == Some(r[Before(|r|, i)])
    {
      if i < |s| {
        assert r[i] == s[i] && l.Next(s[i]) == Some(s[After(|s|, i)]) && l.Prev(s[i]) == Some(s[Before(|s|, i)]);
      } else {
        var j := i - |s|;
        assert r[i] == t[j] && l.Next(t[j]) == Some(t[After(|t|, j)]) && l.Prev(t[j]) == Some(t[Before(|t|, j)]);
      }
    }
    assert forall x :: x !in r ==> x !in s && x !in t;
  }
}
