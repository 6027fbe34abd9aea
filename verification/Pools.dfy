/** The two preallocated pools (`pool.c`, and the node pool of `list.c`): wrapper nodes move between a
    list of free elements and a list of used ones. */
module Pools {
  import opened Lists
  import opened CircularList

  ghost function Datas<T>(ns: seq<Node<T>>): (r: seq<T>)
    reads ns
    ensures |r| == |ns|
  {
    seq(|ns|, i requires 0 <= i < |ns| reads ns => ns[i].data)
  }

  /** Each element is prepended, so the last one comes first. */
  method Filled<T>(items: seq<T>) returns (f: List<T>)
    ensures f.Valid() && fresh(f) && fresh(f.nodes) && Datas(f.nodes) == Reverse(items)
  {
    f := new List<T>();
    var i := 0;
    while i < |items|
      invariant 0 <= i <= |items| && f.Valid() && fresh(f) && fresh(f.nodes)
      invariant Datas(f.nodes) == Reverse(items[..i])
    {
      AddItem(f, items[i]);
      ReverseSnoc(items[..i], items[i]);
      assert items[..i + 1] == items[..i] + [items[i]];
      i := i + 1;
    }
    assert items[..i] == items;
  }

  method AddItem<T>(f: List<T>, item: T)
    requires f.Valid()
    modifies f, f.nodes`prev, f.nodes`next
    ensures f.Valid() && fresh(set n | n in f.nodes && n !in old(f.nodes))
    ensures Datas(f.nodes) == [item] + old(Datas(f.nodes))
  {
    var n := new Node(item);
    f.Prepend(n);
  }

  class Pool<T> {
    const free: List<T>
    const used: List<T>
    var freeCount: int
    var usedCount: int

    ghost predicate Valid()
      reads this, free, used, free.nodes, used.nodes
    {
      && free != used && free.Valid() && used.Valid() && Disjoint(free.nodes, used.nodes)
      && free.nodes != []
      && freeCount == |free.nodes| && usedCount == |used.nodes|
    }

    /** `allocIPSessionPool`, `allocNodelPool`. */
    constructor (items: seq<T>)
      requires items != []
      ensures Valid() && fresh(free) && fresh(used) && fresh(free.nodes)
      ensures used.nodes == [] && Datas(free.nodes) == Reverse(items)
    {
      var f := Filled(items);
      var u := new List<T>();
      free, used := f, u;
      freeCount, usedCount := |items|, 0;
      new;
      assert |Datas(free.nodes)| == |items|;
    }

    /** `getIPSession`, `getNodel`: the last free element is never given out, so the free list does not
        run empty and popping it never fails. */
    method Get() returns (r: Option<T>)
      requires Valid()
      modifies this, free, used, free.nodes`prev, free.nodes`next, used.nodes`prev, used.nodes`next
      ensures Valid()
      ensures |old(free.nodes)| == 1 ==> r == None && free.nodes == old(free.nodes) && used.nodes == old(used.nodes)
      ensures |old(free.nodes)| > 1 ==>
        && r == Some(old(free.nodes)[0].data) && free.nodes == old(free.nodes)[1..]
        && used.nodes == old(used.nodes) + [old(free.nodes)[0]]
    {
      var n := free.PopFirst();
      if free.head == null {
        free.Append(n);
        return None;
      }
      used.Append(n);
      usedCount := usedCount + 1;
      freeCount := freeCount - 1;
      return Some(n.data);
    }

    /** `releaseIPSession`, `releaseNodel`: the wrapper used longest takes `x`, whoever used it. */
    method Release(x: T, ghost w: Node<T>)
      requires Valid() && used.nodes != [] && w == used.nodes[0]
      modifies this, free, used, free.nodes`prev, free.nodes`next, used.nodes`prev, used.nodes`next, w`data
      ensures Valid() && used.nodes == old(used.nodes)[1..] && free.nodes == old(free.nodes) + [w] && w.data == x
    {
      var n := used.PopFirst();
      n.data := x;
      free.Append(n);
      usedCount := usedCount - 1;
      freeCount := freeCount + 1;
    }
  }
}
