/** The candidate table on the hash map: `btf_dedup_table_add` appends, `for_each_dedup_cand` walks the
    entries of one key. */
module BtfIndex {
  import opened BtfTable
  import opened HashMaps
  import opened HashMapSpec
  import opened Lists

  /** Signature hashes are the keys, compared as numbers; type IDs are the values. */
  type Index = Table<int, int, nat>

  /** The IDs `for_each_dedup_cand` visits. */
  function Visited(t: Index, h: int): seq<nat> {
    var es := Vals(t, h);
    seq(|es|, i requires 0 <= i < |es| => es[i].value)
  }

  /** Walking the entries of any hash visits exactly its candidates. */
  ghost predicate Indexes(t: Index, table: seq<Cand>) {
    forall h {:trigger Visited(t, h)} :: ChainOf(table, h, Visited(t, h))
  }

  lemma EmptyIndexes()
    ensures Indexes(Empty(), [])
  {
  }

  /** Growing reverses the candidates of each hash and keeps them. */
  lemma GrownVisited(t: Index, h: int, x: nat)
    ensures x in Visited(HashMapSpec.Grown(t), h) <==> x in Visited(t, h)
  {
    var es, rs := Vals(t, h), Vals(HashMapSpec.Grown(t), h);
    GrownVals(t, h);
    if x in Visited(t, h) {
      var i :| 0 <= i < |es| && es[i].value == x;
      assert rs[|es| - 1 - i] == es[i] && Visited(HashMapSpec.Grown(t), h)[|es| - 1 - i] == x;
    }
    if x in Visited(HashMapSpec.Grown(t), h) {
      var i :| 0 <= i < |rs| && rs[i].value == x;
      assert Visited(t, h)[|es| - 1 - i] == x;
    }
  }

  lemma GrownIndexes(t: Index, table: seq<Cand>)
    requires Indexes(t, table)
    ensures Indexes(HashMapSpec.Grown(t), table)
  {
    forall h
      ensures ChainOf(table, h, Visited(HashMapSpec.Grown(t), h))
    {
      assert ChainOf(table, h, Visited(t, h));
      forall x: nat
        ensures x in Visited(HashMapSpec.Grown(t), h) <==> Cand(h, x) in table
      {
        GrownVisited(t, h, x);
      }
    }
  }

  lemma StoredIndexes(t: Index, table: seq<Cand>, h: int, id: nat, sz: int)
    requires Indexes(t, table)
    ensures Indexes(Store(t, h, [Entry(h, id)] + Vals(t, h), sz), [Cand(h, id)] + table)
  {
    var t' := Store(t, h, [Entry(h, id)] + Vals(t, h), sz);
    forall k
      ensures ChainOf([Cand(h, id)] + table, k, Visited(t', k))
    {
      assert ChainOf(table, k, Visited(t, k));
      assert Visited(t', k) == if k == h then [id] + Visited(t, k) else Visited(t, k);
    }
  }

  /** `btf_dedup_table_add`: the table gains the candidate, or none when memory runs out, whatever
      growing does to the order. */
  lemma AppendIndexes(t: Index, table: seq<Cand>, h: int, id: nat, mem: Memory)
    requires Indexes(t, table)
    ensures var (t', r) := Insert(t, h, Entry(h, id), APPEND, mem);
      Indexes(t', if r.err == 0 then [Cand(h, id)] + table else table)
  {
    GrownIndexes(t, table);
    StoredIndexes(WithSpace(t), table, h, id, t.sz + 1);
  }

  /** `dedup_table`. */
  class CandidateTable {
    const entries: HashMap<int, int, nat>
    ghost var index: Index
    ghost var table: seq<Cand>

    ghost predicate Valid()
      reads this, entries, entries.buckets
    {
      && entries.Valid() && entries.Models(index) && Indexes(index, table)
      && forall h {:trigger entries.content(h)} :: entries.content(h) == h
    }

    /** `hash` is the identity, or constant to force collisions. */
    constructor (hash: int -> nat)
      ensures Valid() && fresh(entries) && fresh(entries.buckets) && table == []
    {
      entries := new HashMap(h => h, hash);
      index, table := Empty(), [];
      new;
      EmptyIndexes();
    }

    /** `btf_dedup_table_add`. */
    method Add(h: int, id: nat, mem: Memory) returns (err: int)
      requires Valid()
      modifies this, entries, entries.buckets
      ensures Valid() && (entries.buckets == old(entries.buckets) || fresh(entries.buckets))
      ensures err == 0 || err == ENOMEM
      ensures table == if err == 0 then [Cand(h, id)] + old(table) else old(table)
    {
      AppendIndexes(index, table, h, id, mem);
      var prior;
      err, prior := entries.Insert(h, id, APPEND, mem, index);
      index := HashMapSpec.Insert(index, h, Entry(h, id), APPEND, mem).0;
      if err == 0 {
        table := [Cand(h, id)] + table;
      }
    }

    /** `for_each_dedup_cand`. */
    method Candidates(h: int) returns (c: seq<nat>)
      requires Valid()
      ensures ChainOf(table, h, c)
    {
      var es := entries.KeyEntries(h, index);
      c := seq(|es|, i requires 0 <= i < |es| => es[i].value);
      assert c == Visited(index, h);
    }
  }
}
