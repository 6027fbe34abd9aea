/** `list.c`: circular doubly-linked lists, relinked in place. Each denotes the sequence of its nodes
    from the head on. */
module CircularList {
  import opened Lists

  class Node<T> {
    var prev: Node?<T>
    var next: Node?<T>
    var data: T

    /** `list_alloc_node`. */
    constructor (data: T)
      ensures this.data == data && prev == null && next == null
    {
      this.data := data;
      prev, next := null, null;
    }
  }

  /** The nodes are linked in both directions; before the first comes `p` and after the last `n`. */
  ghost predicate Linked<T>(ns: seq<Node<T>>, p: Node<T>, n: Node<T>)
    reads ns
  {
    && NoDup(ns)
    && (forall i {:trigger ns[i].next} :: 0 <= i < |ns| ==> ns[i].next == if i + 1 < |ns| then ns[i + 1] else n)
    && (forall i {:trigger ns[i].prev} :: 0 <= i < |ns| ==> ns[i].prev == if i > 0 then ns[i - 1] else p)
  }

  ghost predicate Ring<T>(ns: seq<Node<T>>)
    reads ns
  {
    ns != [] ==> Linked(ns, ns[|ns| - 1], ns[0])
  }

  ghost predicate Disjoint<T>(a: seq<Node<T>>, b: seq<Node<T>>) {
    forall i, j :: 0 <= i < |a| && 0 <= j < |b| ==> a[i] != b[j]
  }

  /** A ring read from its second node on is a ring. */
  lemma RingRotates<T>(ns: seq<Node<T>>)
    requires Ring(ns) && ns != []
    ensures Ring(ns[1..] + [ns[0]])
  {
  }

  /** Two lists that lead into each other form a ring. */
  lemma JoinedIsRing<T>(a: seq<Node<T>>, b: seq<Node<T>>)
    requires a != [] && b != [] && Disjoint(a, b)
    requires Linked(a, b[|b| - 1], b[0]) && Linked(b, a[|a| - 1], a[0])
    ensures Ring(a + b)
  {
  }

  /** Ring `ns` without node `k`: its neighbours are linked to each other. */
  ghost predicate Bypassed<T>(ns: seq<Node<T>>, k: nat)
    requires k < |ns|
    reads ns
  {
    var before, after := if k > 0 then k - 1 else |ns| - 1, if k + 1 < |ns| then k + 1 else 0;
    && NoDup(ns)
    && (forall i {:trigger ns[i].next} :: 0 <= i < |ns| && i != k ==>
          ns[i].next == if i == before then ns[after] else if i + 1 < |ns| then ns[i + 1] else ns[0])
    && (forall i {:trigger ns[i].prev} :: 0 <= i < |ns| && i != k ==>
          ns[i].prev == if i == after then ns[before] else if i > 0 then ns[i - 1] else ns[|ns| - 1])
  }

  lemma BypassedIsRing<T>(ns: seq<Node<T>>, k: nat)
    requires k < |ns| && Bypassed(ns, k)
    ensures Ring(RemoveAt(ns, k)) && ns[k] !in RemoveAt(ns, k)
  {
  }

  class List<T> {
    var head: Node?<T>
    ghost var nodes: seq<Node<T>>

    ghost predicate Valid()
      reads this, nodes
    {
      Ring(nodes) && head == if nodes == [] then null else nodes[0]
    }

    constructor ()
      ensures Valid() && nodes == []
    {
      head, nodes := null, [];
    }

    /** `list_get_first_node`. */
    method First() returns (r: Node?<T>)
      requires Valid()
      ensures r == if nodes == [] then null else nodes[0]
    {
      r := head;
    }

    /** `list_get_last_node`: without walking the list. */
    method Last() returns (r: Node?<T>)
      requires Valid()
      ensures r == if nodes == [] then null else nodes[|nodes| - 1]
    {
      assert nodes != [] ==> nodes[0].prev == nodes[|nodes| - 1];
      r := if head == null then null else head.prev;
    }

    /** `list_get_next_node`. */
    method Next(n: Node<T>, ghost i: nat) returns (r: Node?<T>)
      requires Valid() && i < |nodes| && nodes[i] == n
      ensures r == if i + 1 < |nodes| then nodes[i + 1] else null
    {
      assert nodes[i].next == if i + 1 < |nodes| then nodes[i + 1] else nodes[0];
      r := if n.next == head then null else n.next;
    }

    /** `list_get_prev_node`. */
    method Prev(n: Node<T>, ghost i: nat) returns (r: Node?<T>)
      requires Valid() && i < |nodes| && nodes[i] == n
      ensures r == if i > 0 then nodes[i - 1] else null
    {
      assert nodes[i].prev == if i > 0 then nodes[i - 1] else nodes[|nodes| - 1];
      r := if n == head then null else n.prev;
    }

    /** `list_prepend_node`. */
    method Prepend(node: Node<T>)
      requires Valid() && node !in nodes
      modifies this, nodes`prev, nodes`next, node`prev, node`next
      ensures Valid() && nodes == [node] + old(nodes)
    {
      var here := head;
      if here == null {
        node.prev := node;
        node.next := node;
        head := node;
      } else {
        assert nodes[0].prev == nodes[|nodes| - 1];
        node.prev := here.prev;
        node.next := here;
        here.prev := node;
        if node.prev != null {
          node.prev.next := node;
        }
        head := node;
      }
      nodes := [node] + nodes;
    }

    /** `list_append_node`: prepend, then move the head on by one. */
    method Append(node: Node<T>)
      requires Valid() && node !in nodes
      modifies this, nodes`prev, nodes`next, node`prev, node`next
      ensures Valid() && nodes == old(nodes) + [node]
    {
      ghost var before := nodes;
      Prepend(node);
      RingRotates(nodes);
      assert nodes[0].next == if 1 < |nodes| then nodes[1] else nodes[0];
      head := head.next;
      nodes := nodes[1..] + [nodes[0]];
      assert nodes == before + [node];
    }

    /** `list_search`: the first node whose data compares equal. */
    method Search(data: T, cmp: (T, T) -> int) returns (r: Node?<T>, ghost i: nat)
      requires Valid()
      ensures i <= |nodes| && forall j :: 0 <= j < i ==> cmp(nodes[j].data, data) != 0
      ensures if i < |nodes| then r == nodes[i] && cmp(nodes[i].data, data) == 0 else r == null
    {
      i := 0;
      r := head;
      while r != null
        invariant i <= |nodes| && r == if i < |nodes| then nodes[i] else null
        invariant forall j :: 0 <= j < i ==> cmp(nodes[j].data, data) != 0
        decreases |nodes| - i
      {
        if cmp(r.data, data) == 0 {
          return;
        }
        r := Next(r, i);
        i := i + 1;
      }
    }

    /** `list_unlink`. */
    method Unlink(node: Node<T>, ghost k: nat)
      requires Valid() && k < |nodes| && nodes[k] == node
      modifies this, nodes`prev, nodes`next
      ensures Valid() && nodes == RemoveAt(old(nodes), k) && node !in nodes
      ensures node.prev == null && node.next == null
    {
      ghost var ns := nodes;
      assert ns[k].next == if k + 1 < |ns| then ns[k + 1] else ns[0];
      assert ns[k].prev == if k > 0 then ns[k - 1] else ns[|ns| - 1];
      nodes := RemoveAt(ns, k);
      if node.next == node {
        head := null;
      } else {
        var p, n := node.prev, node.next;
        if p != null {
          p.next := n;
        }
        if n != null {
          n.prev := p;
        }
        if head == node {
          head := n;
        }
      }
      node.next := null;
      node.prev := null;
      BypassedIsRing(ns, k);
    }

    /** `list_pop_first_node`. */
    method PopFirst() returns (r: Node?<T>)
      requires Valid()
      modifies this, nodes`prev, nodes`next
      ensures Valid()
      ensures if old(nodes) == [] then r == null && nodes == []
              else r == old(nodes)[0] && nodes == old(nodes)[1..] && r !in nodes
    {
      r := First();
      if r != null {
        Unlink(r, 0);
      }
    }

    /** The end of `cleanup_flows`: the ring of `other` is spliced in after the last node. */
    method Splice(other: List<T>)
      requires Valid() && other.Valid() && other != this && other.nodes != [] && Disjoint(nodes, other.nodes)
      modifies this, other, nodes`prev, nodes`next, other.nodes`prev, other.nodes`next
      ensures Valid() && other.Valid() && nodes == old(nodes) + old(other.nodes) && other.nodes == []
    {
      if head != null {
        SpliceAfter(other);
      } else {
        Adopt(other);
      }
    }

    /** An empty list takes over the nodes of another. */
    method Adopt(other: List<T>)
      requires other.Valid() && other != this && other.nodes != []
      modifies this, other
      ensures Valid() && other.Valid() && nodes == old(other.nodes) && other.nodes == []
    {
      head, nodes := other.head, other.nodes;
      other.head, other.nodes := null, [];
    }

    method SpliceAfter(other: List<T>)
      requires Valid() && other.Valid() && other != this && nodes != [] && other.nodes != []
      requires Disjoint(nodes, other.nodes)
      modifies this, other, nodes`prev, nodes`next, other.nodes`prev, other.nodes`next
      ensures Valid() && other.Valid() && nodes == old(nodes) + old(other.nodes) && other.nodes == []
    {
      var firstExpired := First();
      var lastExpired := Last();
      var lastFlags := other.Last();
      var firstFlags := other.First();
      Merge(other, firstExpired, lastExpired, firstFlags, lastFlags);
    }

    method Merge(other: List<T>, firstExpired: Node<T>, lastExpired: Node<T>, firstFlags: Node<T>, lastFlags: Node<T>)
      requires Valid() && other.Valid() && other != this && nodes != [] && other.nodes != []
      requires Disjoint(nodes, other.nodes)
      requires firstExpired == nodes[0] && lastExpired == nodes[|nodes| - 1]
      requires firstFlags == other.nodes[0] && lastFlags == other.nodes[|other.nodes| - 1]
      modifies this, other, nodes`prev, nodes`next, other.nodes`prev, other.nodes`next
      ensures Valid() && other.Valid() && nodes == old(nodes) + old(other.nodes) && other.nodes == []
    {
      ghost var a, b := nodes, other.nodes;
      nodes := a + b;
      other.head, other.nodes := null, [];
      Tie(firstExpired, lastExpired, firstFlags, lastFlags, a, b);
    }

    static method Tie(firstExpired: Node<T>, lastExpired: Node<T>, firstFlags: Node<T>, lastFlags: Node<T>,
                      ghost a: seq<Node<T>>, ghost b: seq<Node<T>>)
      requires a != [] && b != [] && Ring(a) && Ring(b) && Disjoint(a, b)
      requires firstExpired == a[0] && lastExpired == a[|a| - 1] && firstFlags == b[0] && lastFlags == b[|b| - 1]
      modifies a`prev, a`next, b`prev, b`next
      ensures Ring(a + b)
    {
      SetEnds(firstExpired, lastExpired, lastFlags, firstFlags, a);
      SetEnds(firstFlags, lastFlags, lastExpired, firstExpired, b);
      JoinedIsRing(a, b);
    }

    /** Relink the ends of a list. */
    static method SetEnds(first: Node<T>, last: Node<T>, p: Node<T>, n: Node<T>, ghost ns: seq<Node<T>>)
      requires ns != [] && Ring(ns) && first == ns[0] && last == ns[|ns| - 1]
      modifies first`prev, last`next
      ensures Linked(ns, p, n)
    {
      first.prev := p;
      last.next := n;
    }
  }
}
