/** The hash map of libbpf: an array of chains that doubles as it fills. */
module HashMaps {
  import opened Lists
  import opened HashMapSpec
  import opened HashChains

  class HashMap<K, C(!new, ==), V> {
    /** `equal_fn` compares the contents of keys, `hash_fn` hashes them. */
    const content: K -> C
    const hash: C -> nat

    var buckets: array<Chain<K, V>>
    var cap: nat
    var capBits: nat
    var sz: nat

    ghost predicate Valid()
      reads this, buckets
    {
      && cap == buckets.Length == CapOf(capBits) && GoodLoad(sz, capBits)
      && sz == |Flat(buckets[..])|
      && (capBits > 0 ==> Placed(content, hash, capBits, buckets[..]))
    }

    /** The entries stored under content `c`, first the one `hashmap__find` returns. */
    ghost function Stored(c: C): Chain<K, V>
      reads this, buckets
    {
      Of(content, Flat(buckets[..]), c)
    }

    /** The map holds what the abstract table `t` does. */
    ghost predicate Models(t: Table<C, K, V>)
      reads this, buckets
    {
      && t.sz == sz && t.bits == capBits
      && forall c {:trigger Vals(t, c)} {:trigger Stored(c)} :: Stored(c) == Vals(t, c)
    }

    /** `hashmap__init`. */
    constructor (content: K -> C, hash: C -> nat)
      ensures Valid() && fresh(buckets) && Models(Empty())
      ensures this.content == content && this.hash == hash
    {
      this.content := content;
      this.hash := hash;
      buckets := new Chain<K, V>[0](_ => []);
      cap, capBits, sz := 0, 0, 0;
      new;
    }

    /** Where `hash_bits` sends content `c`. */
    function Index(c: C): nat
      reads this
      requires 1 <= capBits <= 64
    {
      HashBits(hash(c), capBits)
    }

    ghost predicate Chained(c: C)
      reads this, buckets
    {
      capBits > 0 ==> capBits <= 64 && buckets.Length == Pow2(capBits) && Stored(c) == Of(content, buckets[Index(c)], c)
    }

    lemma OneChain(c: C)
      requires Valid()
      ensures Chained(c)
      ensures capBits == 0 ==> Stored(c) == []
    {
      if capBits > 0 {
        FlatOf(content, buckets[..], Index(c), c);
      } else {
        assert buckets[..] == [];
      }
    }

    /** `hashmap_find_entry`: the first entry of the chain whose key is equal, if any. */
    method FindEntry(c: C) returns (found: bool, b: nat, i: nat)
      requires Valid()
      ensures found <==> Stored(c) != []
      ensures found ==> capBits > 0 && b == Index(c) && b < buckets.Length && FirstOf(content, buckets[b], i, c)
      ensures found ==> buckets[b][i] == Stored(c)[0]
    {
      found, b, i := false, 0, 0;
      OneChain(c);
      if cap == 0 {
        return;
      }
      b := Index(c);
      while i < |buckets[b]|
        invariant 0 <= i <= |buckets[b]|
        invariant forall j :: 0 <= j < i ==> content(buckets[b][j].key) != c
      {
        if content(buckets[b][i].key) == c {
          found := true;
          FirstOfIs(content, buckets[b], i, c);
          return;
        }
        i := i + 1;
      }
      OfNone(content, buckets[b], c);
    }

    /** `hashmap__find`. */
    method Find(key: K, ghost t: Table<C, K, V>) returns (r: Option<Entry<K, V>>)
      requires Valid() && Models(t)
      ensures r == HashMapSpec.Find(t, content(key))
    {
      var found, b, i := FindEntry(content(key));
      assert Stored(content(key)) == Vals(t, content(key));
      r := if found then Some(buckets[b][i]) else None;
    }

    /** `hashmap__for_each_key_entry`: the entries the loop visits, in order. */
    method KeyEntries(key: K, ghost t: Table<C, K, V>) returns (es: Chain<K, V>)
      requires Valid() && Models(t)
      ensures es == Vals(t, content(key))
    {
      var c := content(key);
      OneChain(c);
      assert Stored(c) == Vals(t, c);
      es := [];
      if cap == 0 {
        return;
      }
      var b, i := Index(c), 0;
      while i < |buckets[b]|
        invariant 0 <= i <= |buckets[b]|
        invariant es == Of(content, buckets[b][..i], c)
      {
        OfSnoc(content, buckets[b], i, c);
        if content(buckets[b][i].key) == c {
          es := es + [buckets[b][i]];
        }
        i := i + 1;
      }
      assert buckets[b][..i] == buckets[b];
    }

    // -------------------------------------------------------------- changing one chain

    /** Replace the chain of content `c`, whose entries become `vs`. */
    method PutChain(c: C, es: Chain<K, V>, newSz: nat, ghost vs: Chain<K, V>, ghost t: Table<C, K, V>)
      requires Valid() && Models(t) && capBits > 0 && GoodLoad(newSz, capBits)
      requires Rewrites(content, buckets[Index(c)], es, c, vs)
      requires newSz == sz - |buckets[Index(c)]| + |es|
      modifies this`sz, buckets
      ensures Valid() && Models(Store(t, c, vs, newSz))
    {
      ghost var cs := buckets[..];
      RewritesAll(content, hash, capBits, cs, es, c, vs);
      FlatUpdate(cs, Index(c), es);
      buckets[Index(c)] := es;
      sz := newSz;
      assert buckets[..] == cs[Index(c) := es];
      forall d
        ensures Stored(d) == Vals(Store(t, c, vs, newSz), d)
      {
        assert old(Stored(d)) == Vals(t, d);
      }
    }

    /** `hashmap_grow`: move every entry to the head of its chain in a table twice as large. */
    method Grow(mem: Memory, ghost t: Table<C, K, V>) returns (err: int)
      requires Valid() && Models(t)
      modifies this
      ensures err == if CanGrow(old(capBits), mem) then 0 else ENOMEM
      ensures Valid() && Models(if err == 0 then Grown(t) else t)
      ensures err == 0 ==> fresh(buckets) && GoodLoad(sz + 1, capBits) && capBits > 0
      ensures err != 0 ==> buckets == old(buckets)
    {
      var newBits := GrownBits(capBits);
      if !mem.calloc || newBits > MAX_CAP_BITS {
        return ENOMEM;
      }
      GrownLoad(sz, capBits);
      var newBuckets := new Chain<K, V>[Pow2(newBits)](_ => []);
      ghost var done := MoveAll(newBits, newBuckets);
      MovedIsPlaced(content, hash, newBits, done, newBuckets[..]);
      GrownModels(newBits, newBuckets[..], t);
      buckets, cap, capBits := newBuckets, newBuckets.Length, newBits;
      return 0;
    }

    lemma GrownModels(bits: nat, cs: seq<Chain<K, V>>, t: Table<C, K, V>)
      requires Models(t) && Moving(content, hash, bits, Flat(buckets[..]), cs)
      ensures forall c :: Of(content, Flat(cs), c) == Vals(Grown(t), c)
    {
      MovedIsPlaced(content, hash, bits, Flat(buckets[..]), cs);
      forall c
        ensures Of(content, Flat(cs), c) == Vals(Grown(t), c)
      {
        FlatOf(content, cs, HashBits(hash(c), bits), c);
        PushedOf(content, hash, bits, Flat(buckets[..]), c);
        assert Stored(c) == Vals(t, c);
        GrownVals(t, c);
      }
    }

    /** The loop of `hashmap_grow` over all buckets. */
    method MoveAll(bits: nat, newBuckets: array<Chain<K, V>>) returns (ghost done: Chain<K, V>)
      requires 1 <= bits <= 64 && newBuckets.Length == Pow2(bits) && newBuckets != buckets
      requires forall b :: 0 <= b < newBuckets.Length ==> newBuckets[b] == []
      modifies newBuckets
      ensures done == Flat(buckets[..]) && Moving(content, hash, bits, done, newBuckets[..])
    {
      done := [];
      FlatEmpty(newBuckets[..]);
      var bkt := 0;
      while bkt < buckets.Length
        invariant 0 <= bkt <= buckets.Length && done == Flat(buckets[..bkt])
        invariant Moving(content, hash, bits, done, newBuckets[..])
      {
        done := MoveChain(bits, newBuckets, buckets[bkt], done);
        FlatSnoc(buckets[..bkt], buckets[bkt]);
        assert buckets[..bkt + 1] == buckets[..bkt] + [buckets[bkt]];
        bkt := bkt + 1;
      }
      assert buckets[..bkt] == buckets[..];
    }

    method MoveChain(bits: nat, newBuckets: array<Chain<K, V>>, chain: Chain<K, V>, ghost before: Chain<K, V>)
      returns (ghost done: Chain<K, V>)
      requires Moving(content, hash, bits, before, newBuckets[..])
      modifies newBuckets
      ensures done == before + chain && Moving(content, hash, bits, done, newBuckets[..])
    {
      done := before;
      var j := 0;
      while j < |chain|
        invariant 0 <= j <= |chain| && done == before + chain[..j]
        invariant Moving(content, hash, bits, done, newBuckets[..])
      {
        var h := HashBits(hash(content(chain[j].key)), bits);
        ghost var cs := newBuckets[..];
        MoveOne(content, hash, bits, done, cs, chain[j]);
        newBuckets[h] := [chain[j]] + newBuckets[h];
        assert newBuckets[..] == cs[h := [chain[j]] + cs[h]];
        done := done + [chain[j]];
        assert done == before + chain[..j + 1];
        j := j + 1;
      }
      assert done == before + chain;
    }

    // -------------------------------------------------------------- the operations

    /** `hashmap__delete`. */
    method Delete(key: K, ghost t: Table<C, K, V>) returns (r: Option<Entry<K, V>>)
      requires Valid() && Models(t)
      modifies this`sz, buckets
      ensures Valid() && Models(HashMapSpec.Delete(t, content(key)).0)
      ensures r == HashMapSpec.Delete(t, content(key)).1
    {
      var c := content(key);
      var found, b, i := FindEntry(c);
      assert Stored(c) == Vals(t, c);
      if !found {
        return None;
      }
      r := Some(buckets[b][i]);
      OneChain(c);
      RemoveRewrites(content, buckets[b], i, c);
      SizeBound(b);
      PutChain(c, RemoveAt(buckets[b], i), sz - 1, Vals(t, c)[1..], t);
    }

    /** `hashmap__insert`. */
    method Insert(key: K, value: V, strategy: Strategy, mem: Memory, ghost t: Table<C, K, V>)
      returns (err: int, prior: Option<Entry<K, V>>)
      requires Valid() && Models(t)
      modifies this, buckets
      ensures Valid() && (buckets == old(buckets) || fresh(buckets))
      ensures
        var (t', r) := HashMapSpec.Insert(t, content(key), Entry(key, value), strategy, mem);
        Models(t') && r == Result(err, prior)
    {
      var c := content(key);
      prior := None;
      assert Stored(c) == Vals(t, c);
      var found, b, i := false, 0, 0;
      if strategy != APPEND {
        found, b, i := FindEntry(c);
      }
      if found {
        prior := Some(buckets[b][i]);
        if strategy == SET || strategy == UPDATE {
          OneChain(c);
          ReplaceRewrites(content, buckets[b], i, c, Entry(key, value));
          PutChain(c, buckets[b][i := Entry(key, value)], sz, [Entry(key, value)] + Vals(t, c)[1..], t);
          return 0, prior;
        }
        return EEXIST, prior;
      }
      if strategy == UPDATE {
        return ENOENT, prior;
      }
      err := InsertNew(key, value, mem, t);
    }

    /** The rest of `hashmap__insert`, where a new entry is made. */
    method InsertNew(key: K, value: V, mem: Memory, ghost t: Table<C, K, V>) returns (err: int)
      requires Valid() && Models(t)
      modifies this, buckets
      ensures Valid() && (buckets == old(buckets) || fresh(buckets))
      ensures
        var (t', r) := HashMapSpec.Insert(t, content(key), Entry(key, value), APPEND, mem);
        Models(t') && r == Result(err, None)
    {
      var c, e := content(key), Entry(key, value);
      if NeedsToGrow(sz, cap) {
        err := Grow(mem, t);
        if err != 0 {
          return;
        }
      }
      if !mem.malloc {
        return ENOMEM;
      }
      assert Stored(c) == Vals(WithSpace(t), c);
      OneChain(c);
      PushRewrites(content, buckets[Index(c)], e);
      PutChain(c, [e] + buckets[Index(c)], sz + 1, [e] + Vals(WithSpace(t), c), WithSpace(t));
      return 0;
    }

    lemma SizeBound(b: nat)
      requires Valid() && capBits > 0 && b < buckets.Length
      ensures sz >= |buckets[b]| && (sz > 0 ==> GoodLoad(sz - 1, capBits))
    {
      FlatUpdate(buckets[..], b, []);
    }
  }
}
