/** How large the table of the hash map is: the capacity is settled by the largest size it ever had. */
module HashCapacity {
  import opened Lists
  import opened HashMapSpec

  /** `bits` are those of the least power of two, at least four, of which `size` entries take at most three
      quarters, rounded down as the source does; an unused map has no table. */
  ghost predicate LeastBits(size: int, bits: nat) {
    if size <= 0 then bits == 0
    else bits >= 2 && 4 * size / 3 <= Pow2(bits) && (bits == 2 || Pow2(bits - 1) < 4 * size / 3)
  }

  lemma {:induction false} Pow2Grows(a: nat, b: nat)
    requires a <= b
    ensures Pow2(a) <= Pow2(b)
    decreases b
  {
    if a < b {
      Pow2Grows(a, b - 1);
    }
  }

  /** No smaller capacity of at least four would do, */
  lemma LeastBitsMeans(size: int, bits: nat, k: nat)
    requires size > 0 && LeastBits(size, bits) && k >= 2 && 4 * size / 3 <= Pow2(k)
    ensures bits <= k && Pow2(bits) <= Pow2(k)
  {
    if k < bits {
      Pow2Grows(k, bits - 1);
      assert false;
    }
    Pow2Grows(bits, k);
  }

  /** so there is one such number. */
  lemma LeastBitsUnique(size: int, a: nat, b: nat)
    requires LeastBits(size, a) && LeastBits(size, b)
    ensures a == b
  {
    if size > 0 {
      LeastBitsMeans(size, a, b);
      LeastBitsMeans(size, b, a);
    }
  }

  // ---------------------------------------------------------------- the size counts the entries

  /** `b` has the content of the key of every entry. */
  ghost predicate Sized<C(!new), K, V>(t: Table<C, K, V>, b: multiset<C>) {
    t.sz == |b| && forall c {:trigger Vals(t, c)} :: |Vals(t, c)| == b[c]
  }

  lemma GrownSized<C(!new), K, V>(t: Table<C, K, V>, b: multiset<C>)
    requires Sized(t, b)
    ensures Sized(Grown(t), b)
  {
    forall c
      ensures |Vals(Grown(t), c)| == b[c]
    {
      GrownVals(t, c);
    }
  }

  lemma StoredSized<C(!new), K, V>(t: Table<C, K, V>, b: multiset<C>, c: C, es: seq<Entry<K, V>>, b': multiset<C>)
    requires Sized(t, b) && |es| == b'[c] && forall d :: d != c ==> b'[d] == b[d]
    ensures Sized(Store(t, c, es, |b'|), b')
  {
    forall d
      ensures |Vals(Store(t, c, es, |b'|), d)| == b'[d]
    {
      assert d != c ==> Vals(Store(t, c, es, |b'|), d) == Vals(t, d);
    }
  }

  lemma InsertSized<C(!new), K, V>(t: Table<C, K, V>, b: multiset<C>, op: Op<C, K, V>) returns (b': multiset<C>)
    requires Sized(t, b) && op.DoInsert?
    ensures Sized(Step(t, op).0, b')
  {
    var u := WithSpace(t);
    GrownSized(t, b);
    assert Sized(u, b);
    b' := b;
    if op.s != APPEND && Vals(t, op.c) != [] {
      StoredSized(t, b, op.c, [op.e] + Vals(t, op.c)[1..], b);
    } else if Step(t, op).1.err == 0 {
      b' := b + multiset{op.c};
      StoredSized(u, b, op.c, [op.e] + Vals(u, op.c), b');
    }
  }

  lemma StepSized<C(!new), K, V>(t: Table<C, K, V>, b: multiset<C>, op: Op<C, K, V>) returns (b': multiset<C>)
    requires Sized(t, b)
    ensures Sized(Step(t, op).0, b')
  {
    b' := b;
    match op
    case DoInsert(_, _, _, _) => b' := InsertSized(t, b, op);
    case DoFind(_) =>
    case DoDelete(c) =>
      if Vals(t, c) != [] {
        b' := b - multiset{c};
        StoredSized(t, b, c, Vals(t, c)[1..], b');
      }
  }

  // ---------------------------------------------------------------- the capacity

  function Max(a: int, b: int): int {
    if a < b then b else a
  }

  /** The largest size so far: `peak` before, or one reached in the run. */
  function Peak<C, K, V>(t: Table<C, K, V>, ops: seq<Op<C, K, V>>): int
    decreases |ops|
  {
    if ops == [] then t.sz else Max(t.sz, Peak(Step(t, ops[0]).0, ops[1..]))
  }

  lemma RoomAfterDoubling(size: nat, bits: nat)
    requires bits >= 2 && 4 * size / 3 <= Pow2(bits)
    ensures 4 * (size + 1) / 3 <= Pow2(bits + 1)
  {
    Pow2Grows(2, bits);
    assert Pow2(2) == 4;
  }

  /** One more entry than the largest size so far. */
  lemma GrowthIsLeast(peak: nat, bits: nat)
    requires LeastBits(peak, bits) && GrownBits(bits) <= MAX_CAP_BITS
    ensures LeastBits(peak + 1, if NeedsToGrow(peak, CapOf(bits)) then GrownBits(bits) else bits)
  {
    assert Pow2(2) == 4;
    if bits >= 2 {
      RoomAfterDoubling(peak, bits);
    }
  }

  lemma StepCapacity<C(!new), K, V>(t: Table<C, K, V>, op: Op<C, K, V>, b: multiset<C>, peak: nat)
    requires Sized(t, b) && t.sz <= peak && LeastBits(peak, t.bits)
    requires op.DoInsert? ==> op.mem == Memory(true, true)
    ensures LeastBits(Max(peak, Step(t, op).0.sz), Step(t, op).0.bits)
  {
    if op.DoInsert? && Step(t, op).0.sz == t.sz + 1 {
      if GrownBits(t.bits) <= MAX_CAP_BITS && t.sz == peak {
        GrowthIsLeast(peak, t.bits);
      }
    }
  }

  lemma {:induction false} RunCapacity<C(!new), K, V>(t: Table<C, K, V>, ops: seq<Op<C, K, V>>, b: multiset<C>,
                                                       peak: nat)
    requires Sized(t, b) && t.sz <= peak && LeastBits(peak, t.bits) && Plenty(ops)
    ensures LeastBits(Max(peak, Peak(t, ops)), After(t, ops).bits)
    decreases |ops|
  {
    if ops != [] {
      var t' := Step(t, ops[0]).0;
      StepCapacity(t, ops[0], b, peak);
      var b' := StepSized(t, b, ops[0]);
      RunCapacity(t', ops[1..], b', Max(peak, t'.sz));
    }
  }

  /** After any run of a new map with successful allocations: no table until an entry was stored, then the
      least power of two, at least four, with room for the largest size the map ever had. */
  lemma CapacityIsLeast<C(!new), K, V>(ops: seq<Op<C, K, V>>)
    requires Plenty(ops)
    ensures LeastBits(Peak(Empty(), ops), After(Empty(), ops).bits)
    ensures var peak, cap := Peak(Empty(), ops), CapOf(After(Empty(), ops).bits);
      if peak == 0 then cap == 0
      else cap >= 4 && 4 * peak / 3 <= cap && forall k: nat :: k >= 2 && 4 * peak / 3 <= Pow2(k) ==> cap <= Pow2(k)
  {
    var t: Table<C, K, V> := Empty();
    assert Sized(t, multiset{});
    RunCapacity(t, ops, multiset{}, 0);
    PeakIsLarger(t, ops);
    var peak, bits := Peak(t, ops), After(t, ops).bits;
    if peak > 0 {
      Pow2Grows(2, bits);
      assert Pow2(2) == 4;
      forall k: nat | k >= 2 && 4 * peak / 3 <= Pow2(k)
        ensures Pow2(bits) <= Pow2(k)
      {
        LeastBitsMeans(peak, bits, k);
      }
    }
  }

  lemma PeakIsLarger<C, K, V>(t: Table<C, K, V>, ops: seq<Op<C, K, V>>)
    ensures Peak(t, ops) >= t.sz
  {
  }

  // ---------------------------------------------------------------- growths by sizes

  lemma {:induction false} AfterConcat<C, K, V>(t: Table<C, K, V>, a: seq<Op<C, K, V>>, b: seq<Op<C, K, V>>)
    ensures After(t, a + b) == After(After(t, a), b)
    decreases |a|
  {
    if a == [] {
      assert a + b == b;
    } else {
      assert (a + b)[0] == a[0] && (a + b)[1..] == a[1..] + b;
      AfterConcat(Step(t, a[0]).0, a[1..], b);
    }
  }

  /** Once there is a table, it doubles as often as its bits increase. */
  lemma {:induction false} GrowthsAreBits<C, K, V>(t: Table<C, K, V>, ops: seq<Op<C, K, V>>)
    requires t.bits >= 2
    ensures After(t, ops).bits == t.bits + Growths(t, ops)
    decreases |ops|
  {
    if ops != [] {
      GrowthsAreBits(Step(t, ops[0]).0, ops[1..]);
    }
  }

  lemma InsertedHasTable<C, K, V>(t: Table<C, K, V>, op: Op<C, K, V>)
    requires op.DoInsert? && Step(t, op).1.err == 0 && (t.bits == 0 ==> Vals(t, op.c) == []) && t.bits != 1
    ensures Step(t, op).0.bits >= 2
  {
  }

  lemma NoTableNoEntries<C(!new), K, V>(t: Table<C, K, V>, b: multiset<C>, c: C, peak: nat)
    requires Sized(t, b) && t.sz <= peak && LeastBits(peak, t.bits)
    ensures t.bits == 0 ==> Vals(t, c) == []
    ensures t.bits != 1
  {
    assert t.bits == 0 ==> |b| == 0;
    assert |Vals(t, c)| == b[c];
  }

  lemma {:induction false} RunSized<C(!new), K, V>(t: Table<C, K, V>, ops: seq<Op<C, K, V>>, b: multiset<C>)
    returns (b': multiset<C>)
    requires Sized(t, b)
    ensures Sized(After(t, ops), b')
    decreases |ops|
  {
    if ops == [] {
      b' := b;
    } else {
      var b1 := StepSized(t, b, ops[0]);
      b' := RunSized(Step(t, ops[0]).0, ops[1..], b1);
    }
  }

  lemma {:induction false} EndsBelowPeak<C, K, V>(t: Table<C, K, V>, ops: seq<Op<C, K, V>>)
    ensures After(t, ops).sz <= Peak(t, ops)
    decreases |ops|
  {
    if ops != [] {
      EndsBelowPeak(Step(t, ops[0]).0, ops[1..]);
    }
  }

  lemma ReachedHasTable<C(!new), K, V>(before: seq<Op<C, K, V>>, op: Op<C, K, V>)
    requires Plenty(before) && op.DoInsert? && Step(After(Empty(), before), op).1.err == 0
    ensures Step(After(Empty(), before), op).0.bits >= 2
  {
    var start: Table<C, K, V> := Empty();
    var t := After(start, before);
    assert Sized(start, multiset{});
    var b := RunSized(start, before, multiset{});
    CapacityIsLeast(before);
    EndsBelowPeak(start, before);
    PeakIsLarger(start, before);
    NoTableNoEntries(t, b, op.c, Peak(start, before));
    InsertedHasTable(t, op);
  }

  lemma StepIsAfter<C, K, V>(t: Table<C, K, V>, op: Op<C, K, V>)
    ensures After(t, [op]) == Step(t, op).0
  {
    assert [op][1..] == [];
  }

  lemma BitsBySizes<C(!new), K, V>(ops: seq<Op<C, K, V>>, bits: nat)
    requires Plenty(ops) && LeastBits(Peak(Empty(), ops), bits)
    ensures After(Empty(), ops).bits == bits
  {
    CapacityIsLeast(ops);
    LeastBitsUnique(Peak(Empty(), ops), bits, After(Empty(), ops).bits);
  }

  lemma PlentyBefore<C, K, V>(a: seq<Op<C, K, V>>, b: seq<Op<C, K, V>>)
    requires Plenty(a + b)
    ensures Plenty(a)
  {
    assert forall i :: 0 <= i < |a| ==> (a + b)[i] == a[i];
  }

  /** Which entry `hashmap__find` returns, in sizes only. In a run of a new map with successful allocations,
      let `p` be the largest size up to a successful insertion, and `q` the largest of the whole run, that
      leaves the key alone afterwards. Then find returns the entry inserted exactly if the bits of the least
      sufficient capacities for `p` and `q` differ by an even number, or the oldest entry of the key is equal. */
  lemma FindBySizes<C(!new), K, V>(before: seq<Op<C, K, V>>, op: Op<C, K, V>, ops: seq<Op<C, K, V>>, a: nat, b: nat)
    requires Plenty(before + [op] + ops) && Untouched(ops, op.c) && op.DoInsert?
    requires Step(After(Empty(), before), op).1.err == 0
    requires LeastBits(Peak(Empty(), before + [op]), a) && LeastBits(Peak(Empty(), before + [op] + ops), b)
    ensures
      var es := Vals(After(Empty(), before + [op]), op.c);
      && es != [] && a <= b
      && (Find(After(Empty(), before + [op] + ops), op.c) == Some(op.e) <==> (b - a) % 2 == 0 || es[|es| - 1] == op.e)
  {
    var start: Table<C, K, V> := Empty();
    var t := After(start, before);
    var t' := Step(t, op).0;
    PlentyBefore(before + [op], ops);
    PlentyBefore(before, [op]);
    AfterConcat(start, before, [op]);
    StepIsAfter(t, op);
    AfterConcat(start, before + [op], ops);
    ReachedHasTable(before, op);
    GrowthsAreBits(t', ops);
    BitsBySizes<C, K, V>(before + [op], a);
    BitsBySizes<C, K, V>(before + [op] + ops, b);
    FindAfterInsert(t, op.c, op.e, op.s, op.mem, ops);
  }
}
