/** What the hash map of libbpf computes: for every key content, the values stored under it, newest
    first until the table grows. */
module HashMapSpec {
  import opened Lists

  /** A key is a pointer; `content` of it, here of type `C`, is what `equal_fn` compares and `hash_fn` hashes. */
  datatype Entry<K, V> = Entry(key: K, value: V)

  datatype Strategy = ADD | SET | UPDATE | APPEND

  const EEXIST: int := -17
  const ENOENT: int := -2
  const ENOMEM: int := -12

  const MIN_CAP_BITS: nat := 2
  /** `calloc` of more than 2^60 pointers overflows and fails. */
  const MAX_CAP_BITS: nat := 60

  function Pow2(n: nat): (r: nat)
    ensures r > 0
  {
    if n == 0 then 1 else 2 * Pow2(n - 1)
  }

  /** `hashmap_needs_to_grow`. */
  predicate NeedsToGrow(sz: int, cap: nat) {
    cap == 0 || (sz + 1) * 4 / 3 > cap
  }

  function GrownBits(bits: nat): nat {
    if bits + 1 < MIN_CAP_BITS then MIN_CAP_BITS else bits + 1
  }

  function CapOf(bits: nat): nat {
    if bits == 0 then 0 else Pow2(bits)
  }

  /** The load the table keeps to; `hashmap_needs_to_grow` is false of it or just was. */
  predicate GoodLoad(sz: int, bits: nat) {
    if bits == 0 then sz == 0 else MIN_CAP_BITS <= bits <= MAX_CAP_BITS && sz * 4 / 3 <= CapOf(bits)
  }

  /** Growing makes room for one entry more. */
  lemma GrownLoad(sz: nat, bits: nat)
    requires GoodLoad(sz, bits) && GrownBits(bits) <= MAX_CAP_BITS
    ensures GoodLoad(sz, GrownBits(bits)) && GoodLoad(sz + 1, GrownBits(bits))
  {
    assert bits >= 2 ==> Pow2(bits) >= 2;
  }

  // ---------------------------------------------------------------- the abstract table

  datatype Table<C, K, V> = Table(vals: map<C, seq<Entry<K, V>>>, sz: int, bits: nat)

  function Vals<C, K, V>(t: Table<C, K, V>, c: C): seq<Entry<K, V>> {
    if c in t.vals then t.vals[c] else []
  }

  /** Growing reverses the entries of every key. */
  function Grown<C, K, V>(t: Table<C, K, V>): Table<C, K, V> {
    Table(map c | c in t.vals :: Reverse(t.vals[c]), t.sz, GrownBits(t.bits))
  }

  lemma GrownVals<C, K, V>(t: Table<C, K, V>, c: C)
    ensures Vals(Grown(t), c) == Reverse(Vals(t, c))
  {
  }

  datatype Result<K, V> = Result(err: int, prior: Option<Entry<K, V>>)

  /** The outcome of the two allocations an insertion may make. */
  datatype Memory = Memory(calloc: bool, malloc: bool)

  predicate CanGrow(bits: nat, mem: Memory) {
    mem.calloc && GrownBits(bits) <= MAX_CAP_BITS
  }

  function WithSpace<C, K, V>(t: Table<C, K, V>): Table<C, K, V> {
    if NeedsToGrow(t.sz, CapOf(t.bits)) then Grown(t) else t
  }

  function Store<C, K, V>(t: Table<C, K, V>, c: C, es: seq<Entry<K, V>>, sz: int): Table<C, K, V> {
    Table(t.vals[c := es], sz, t.bits)
  }

  function Insert<C, K, V>(t: Table<C, K, V>, c: C, e: Entry<K, V>, s: Strategy, mem: Memory)
    : (Table<C, K, V>, Result<K, V>)
  {
    var es := Vals(t, c);
    if s != APPEND && es != [] then
      if s == ADD then (t, Result(EEXIST, Some(es[0])))
      else (Store(t, c, [e] + es[1..], t.sz), Result(0, Some(es[0])))
    else if s == UPDATE then (t, Result(ENOENT, None))
    else if NeedsToGrow(t.sz, CapOf(t.bits)) && !CanGrow(t.bits, mem) then (t, Result(ENOMEM, None))
    else if !mem.malloc then (WithSpace(t), Result(ENOMEM, None))
    else (Store(WithSpace(t), c, [e] + Vals(WithSpace(t), c), t.sz + 1), Result(0, None))
  }

  function Find<C, K, V>(t: Table<C, K, V>, c: C): Option<Entry<K, V>> {
    var es := Vals(t, c);
    if es == [] then None else Some(es[0])
  }

  function Delete<C, K, V>(t: Table<C, K, V>, c: C): (Table<C, K, V>, Option<Entry<K, V>>) {
    var es := Vals(t, c);
    if es == [] then (t, None) else (Store(t, c, es[1..], t.sz - 1), Some(es[0]))
  }

  // ---------------------------------------------------------------- runs

  datatype Op<C, K, V> =
    | DoInsert(c: C, e: Entry<K, V>, s: Strategy, mem: Memory)
    | DoFind(c: C)
    | DoDelete(c: C)

  function Step<C, K, V>(t: Table<C, K, V>, op: Op<C, K, V>): (Table<C, K, V>, Result<K, V>) {
    match op
    case DoInsert(c, e, s, mem) => Insert(t, c, e, s, mem)
    case DoFind(c) => (t, Result(0, Find(t, c)))
    case DoDelete(c) => var (t', prior) := Delete(t, c); (t', Result(0, prior))
  }

  function After<C, K, V>(t: Table<C, K, V>, ops: seq<Op<C, K, V>>): Table<C, K, V>
    decreases |ops|
  {
    if ops == [] then t else After(Step(t, ops[0]).0, ops[1..])
  }

  function Results<C, K, V>(t: Table<C, K, V>, ops: seq<Op<C, K, V>>): (r: seq<Result<K, V>>)
    ensures |r| == |ops|
    decreases |ops|
  {
    if ops == [] then [] else [Step(t, ops[0]).1] + Results(Step(t, ops[0]).0, ops[1..])
  }

  const EMPTY_BITS: nat := 0

  function Empty<C, K, V>(): Table<C, K, V> {
    Table(map[], 0, EMPTY_BITS)
  }

  // ---------------------------------------------------------------- without APPEND it is a map

  /** What a mathematical map does. */
  function MapStep<C, K, V>(m: map<C, Entry<K, V>>, op: Op<C, K, V>): (map<C, Entry<K, V>>, Result<K, V>) {
    match op
    case DoInsert(c, e, s, mem) =>
      var prior := if c in m then Some(m[c]) else None;
      if s == ADD && c in m then (m, Result(EEXIST, prior))
      else if s == UPDATE && c !in m then (m, Result(ENOENT, None))
      else (m[c := e], Result(0, prior))
    case DoFind(c) => (m, Result(0, if c in m then Some(m[c]) else None))
    case DoDelete(c) => (m - {c}, Result(0, if c in m then Some(m[c]) else None))
  }

  predicate NoAppend<C, K, V>(ops: seq<Op<C, K, V>>) {
    forall i :: 0 <= i < |ops| && ops[i].DoInsert? ==> ops[i].s != APPEND
  }

  /** The results are those of a mathematical map, save that an insertion may fail for want of memory
      and then changes nothing. */
  ghost predicate LikeMap<C, K, V>(m: map<C, Entry<K, V>>, ops: seq<Op<C, K, V>>, rs: seq<Result<K, V>>)
    requires |rs| == |ops|
    decreases |ops|
  {
    if ops == [] then true
    else if rs[0].err == ENOMEM then ops[0].DoInsert? && rs[0].prior == None && LikeMap(m, ops[1..], rs[1..])
    else rs[0] == MapStep(m, ops[0]).1 && LikeMap(MapStep(m, ops[0]).0, ops[1..], rs[1..])
  }

  ghost predicate IsMap<C(!new), K, V>(t: Table<C, K, V>, m: map<C, Entry<K, V>>) {
    && t.sz == |m|
    && forall c {:trigger Vals(t, c)} :: Vals(t, c) == if c in m then [m[c]] else []
  }

  lemma GrownIsMap<C(!new), K, V>(t: Table<C, K, V>, m: map<C, Entry<K, V>>)
    requires IsMap(t, m)
    ensures IsMap(Grown(t), m)
  {
    forall c
      ensures Vals(Grown(t), c) == if c in m then [m[c]] else []
    {
      GrownVals(t, c);
      assert Vals(t, c) == if c in m then [m[c]] else [];
    }
  }

  lemma StoreIsMap<C(!new), K, V>(t: Table<C, K, V>, m: map<C, Entry<K, V>>, c: C, e: Entry<K, V>)
    requires IsMap(t, m)
    ensures IsMap(Store(t, c, [e], |m[c := e]|), m[c := e])
  {
    var t' := Store(t, c, [e], |m[c := e]|);
    forall b
      ensures Vals(t', b) == if b in m[c := e] then [m[c := e][b]] else []
    {
      assert b != c ==> Vals(t', b) == Vals(t, b);
    }
  }

  lemma MapSize<C, E>(m: map<C, E>, c: C, e: E)
    ensures |m[c := e]| == |m| + if c in m then 0 else 1
    ensures |m - {c}| == |m| - if c in m then 1 else 0
  {
    var n := m[c := e];
    assert n.Keys == m.Keys + {c};
    assert |n| == |n.Keys| && |m| == |m.Keys|;
    assert (m - {c}).Keys == m.Keys - {c};
    assert |m - {c}| == |(m - {c}).Keys|;
  }

  lemma DeleteIsMap<C(!new), K, V>(t: Table<C, K, V>, m: map<C, Entry<K, V>>, c: C)
    requires IsMap(t, m) && c in m
    ensures IsMap(Store(t, c, [], |m - {c}|), m - {c})
  {
    var t' := Store(t, c, [], |m - {c}|);
    forall b
      ensures Vals(t', b) == if b in m - {c} then [(m - {c})[b]] else []
    {
      assert b != c ==> Vals(t', b) == Vals(t, b);
    }
  }

  /** Storing over an entry, or beside none, is a map update. */
  lemma StoreOver<C(!new), K, V>(t: Table<C, K, V>, m: map<C, Entry<K, V>>, c: C, e: Entry<K, V>)
    requires IsMap(t, m)
    ensures c in m ==> Vals(t, c) == [m[c]] && IsMap(Store(t, c, [e] + Vals(t, c)[1..], t.sz), m[c := e])
    ensures c !in m ==> Vals(t, c) == [] && IsMap(Store(t, c, [e] + Vals(t, c), t.sz + 1), m[c := e])
  {
    assert Vals(t, c) == if c in m then [m[c]] else [];
    MapSize(m, c, e);
    StoreIsMap(t, m, c, e);
    if c in m {
      assert [e] + Vals(t, c)[1..] == [e];
    } else {
      assert [e] + Vals(t, c) == [e];
    }
  }

  ghost predicate StepLikeMap<C(!new), K, V>(t: Table<C, K, V>, r: Result<K, V>, m: map<C, Entry<K, V>>,
                                             op: Op<C, K, V>) {
    if r.err == ENOMEM then op.DoInsert? && r.prior == None && IsMap(t, m)
    else r == MapStep(m, op).1 && IsMap(t, MapStep(m, op).0)
  }

  lemma InsertIsMap<C(!new), K, V>(t: Table<C, K, V>, m: map<C, Entry<K, V>>, op: Op<C, K, V>)
    requires IsMap(t, m) && op.DoInsert? && op.s != APPEND
    ensures StepLikeMap(Step(t, op).0, Step(t, op).1, m, op)
  {
    StoreOver(t, m, op.c, op.e);
    if op.c !in m {
      GrownIsMap(t, m);
      StoreOver(Grown(t), m, op.c, op.e);
    }
  }

  lemma StepIsMap<C(!new), K, V>(t: Table<C, K, V>, m: map<C, Entry<K, V>>, op: Op<C, K, V>)
    requires IsMap(t, m) && (op.DoInsert? ==> op.s != APPEND)
    ensures StepLikeMap(Step(t, op).0, Step(t, op).1, m, op)
  {
    assert Vals(t, op.c) == if op.c in m then [m[op.c]] else [];
    match op
    case DoInsert(c, e, s, mem) =>
      InsertIsMap(t, m, op);
    case DoFind(c) =>
    case DoDelete(c) =>
      if c in m {
        MapSize(m, c, m[c]);
        DeleteIsMap(t, m, c);
      } else {
        assert m - {c} == m;
      }
  }

  /** Any run of ADD, SET, UPDATE, find and delete behaves as a mathematical map. */
  lemma {:induction false} RunIsMap<C(!new), K, V>(t: Table<C, K, V>, m: map<C, Entry<K, V>>, ops: seq<Op<C, K, V>>)
    requires IsMap(t, m) && NoAppend(ops)
    ensures LikeMap(m, ops, Results(t, ops))
    decreases |ops|
  {
    if ops != [] {
      StepIsMap(t, m, ops[0]);
      var r := Step(t, ops[0]);
      RunIsMap(r.0, if r.1.err == ENOMEM then m else MapStep(m, ops[0]).0, ops[1..]);
      assert Results(t, ops)[1..] == Results(r.0, ops[1..]);
    }
  }

  function MapResults<C, K, V>(m: map<C, Entry<K, V>>, ops: seq<Op<C, K, V>>): (r: seq<Result<K, V>>)
    ensures |r| == |ops|
    decreases |ops|
  {
    if ops == [] then [] else [MapStep(m, ops[0]).1] + MapResults(MapStep(m, ops[0]).0, ops[1..])
  }

  /** Every allocation that is tried succeeds. */
  ghost predicate Plenty<C, K, V>(ops: seq<Op<C, K, V>>) {
    forall i :: 0 <= i < |ops| && ops[i].DoInsert? ==> ops[i].mem == Memory(true, true)
  }

  /** Even the largest table that can be allocated has room for this many entries. */
  predicate Fits(entries: int) {
    entries * 4 / 3 <= CapOf(MAX_CAP_BITS)
  }

  lemma StepFits<C, K, V>(t: Table<C, K, V>, op: Op<C, K, V>)
    requires t.bits <= MAX_CAP_BITS && Fits(t.sz + 1) && (op.DoInsert? ==> op.mem == Memory(true, true))
    ensures Step(t, op).1.err != ENOMEM && Step(t, op).0.bits <= MAX_CAP_BITS && Step(t, op).0.sz <= t.sz + 1
  {
  }

  /** With successful allocations no operation fails for want of memory before the table is as large as
      it can be. */
  lemma {:induction false} RunHasMemory<C, K, V>(t: Table<C, K, V>, ops: seq<Op<C, K, V>>)
    requires t.bits <= MAX_CAP_BITS && Plenty(ops) && Fits(t.sz + |ops|)
    ensures forall i :: 0 <= i < |ops| ==> Results(t, ops)[i].err != ENOMEM
    decreases |ops|
  {
    if ops != [] {
      StepFits(t, ops[0]);
      RunHasMemory(Step(t, ops[0]).0, ops[1..]);
    }
  }

  lemma {:induction false} LikeMapIsMap<C, K, V>(m: map<C, Entry<K, V>>, ops: seq<Op<C, K, V>>, rs: seq<Result<K, V>>)
    requires |rs| == |ops| && LikeMap(m, ops, rs) && forall i :: 0 <= i < |rs| ==> rs[i].err != ENOMEM
    ensures rs == MapResults(m, ops)
    decreases |ops|
  {
    if ops != [] {
      LikeMapIsMap(MapStep(m, ops[0]).0, ops[1..], rs[1..]);
      assert rs == [rs[0]] + rs[1..];
    }
  }

  /** Then a run without APPEND returns exactly what a mathematical map does. */
  lemma RunIsExactlyMap<C(!new), K, V>(t: Table<C, K, V>, m: map<C, Entry<K, V>>, ops: seq<Op<C, K, V>>)
    requires IsMap(t, m) && NoAppend(ops)
    requires t.bits <= MAX_CAP_BITS && Plenty(ops) && Fits(t.sz + |ops|)
    ensures Results(t, ops) == MapResults(m, ops)
  {
    RunIsMap(t, m, ops);
    RunHasMemory(t, ops);
    LikeMapIsMap(m, ops, Results(t, ops));
  }

  // ---------------------------------------------------------------- with APPEND it is a multimap

  ghost function Bag<C, K, V>(t: Table<C, K, V>, c: C): multiset<Entry<K, V>> {
    multiset(Vals(t, c))
  }

  /** What one operation does to the bag of entries of `c`, as far as its caller is told. */
  ghost function BagStep<C, K, V>(b: multiset<Entry<K, V>>, c: C, op: Op<C, K, V>,
                                  r: Result<K, V>): multiset<Entry<K, V>> {
    if op.c != c || op.DoFind? || r.err != 0 then b
    else
      var rest := if r.prior.Some? then b - multiset{r.prior.value} else b;
      if op.DoInsert? then rest + multiset{op.e} else rest
  }

  ghost function BagAfter<C, K, V>(b: multiset<Entry<K, V>>, c: C, ops: seq<Op<C, K, V>>,
                                   rs: seq<Result<K, V>>): multiset<Entry<K, V>>
    requires |ops| == |rs|
    decreases |ops|
  {
    if ops == [] then b else BagAfter(BagStep(b, c, ops[0], rs[0]), c, ops[1..], rs[1..])
  }

  lemma {:induction false} ReverseBag<T>(s: seq<T>)
    ensures multiset(Reverse(s)) == multiset(s)
  {
    if s != [] {
      ReverseBag(s[1..]);
      assert s == [s[0]] + s[1..];
    }
  }

  lemma HeadBag<T>(s: seq<T>, x: T)
    ensures multiset([x] + s) == multiset(s) + multiset{x}
    ensures s != [] ==> multiset(s[1..]) == multiset(s) - multiset{s[0]}
  {
    assert s != [] ==> s == [s[0]] + s[1..];
  }

  lemma WithSpaceBag<C, K, V>(t: Table<C, K, V>, c: C)
    ensures Bag(WithSpace(t), c) == Bag(t, c)
  {
    GrownVals(t, c);
    ReverseBag(Vals(t, c));
  }

  lemma StoreVals<C, K, V>(t: Table<C, K, V>, c: C, es: seq<Entry<K, V>>, sz: int, b: C)
    ensures Vals(Store(t, c, es, sz), b) == if b == c then es else Vals(t, b)
  {
  }

  /** Storing over the first entry swaps it in the bag. */
  lemma SetBag<C, K, V>(t: Table<C, K, V>, c: C, e: Entry<K, V>)
    requires Vals(t, c) != []
    ensures Bag(Store(t, c, [e] + Vals(t, c)[1..], t.sz), c) == Bag(t, c) - multiset{Vals(t, c)[0]} + multiset{e}
  {
    var es := Vals(t, c);
    StoreVals(t, c, [e] + es[1..], t.sz, c);
    HeadBag(es, e);
    HeadBag(es[1..], e);
  }

  lemma NewBag<C, K, V>(t: Table<C, K, V>, c: C, e: Entry<K, V>)
    ensures Bag(Store(WithSpace(t), c, [e] + Vals(WithSpace(t), c), t.sz + 1), c) == Bag(t, c) + multiset{e}
  {
    StoreVals(WithSpace(t), c, [e] + Vals(WithSpace(t), c), t.sz + 1, c);
    HeadBag(Vals(WithSpace(t), c), e);
    WithSpaceBag(t, c);
  }

  lemma InsertBag<C, K, V>(t: Table<C, K, V>, c: C, e: Entry<K, V>, s: Strategy, mem: Memory)
    ensures
      var (t', r) := Insert(t, c, e, s, mem);
      Bag(t', c) == BagStep(Bag(t, c), c, DoInsert(c, e, s, mem), r)
  {
    if s != APPEND && Vals(t, c) != [] {
      SetBag(t, c, e);
    } else {
      InsertNewBag(t, c, e, s, mem);
    }
  }

  lemma InsertNewBag<C, K, V>(t: Table<C, K, V>, c: C, e: Entry<K, V>, s: Strategy, mem: Memory)
    requires s == APPEND || Vals(t, c) == []
    ensures
      var (t', r) := Insert(t, c, e, s, mem);
      r.prior == None && Bag(t', c) == if r.err == 0 then Bag(t, c) + multiset{e} else Bag(t, c)
  {
    NewBag(t, c, e);
    WithSpaceBag(t, c);
  }

  lemma DeleteBag<C, K, V>(t: Table<C, K, V>, c: C)
    ensures
      var (t', r) := Step(t, DoDelete(c));
      Bag(t', c) == BagStep(Bag(t, c), c, DoDelete(c), r)
  {
    var es := Vals(t, c);
    if es != [] {
      HeadBag(es, es[0]);
    }
  }

  lemma OtherBag<C, K, V>(t: Table<C, K, V>, op: Op<C, K, V>, c: C)
    requires op.DoFind? || op.c != c
    ensures Bag(Step(t, op).0, c) == Bag(t, c)
  {
    StepReverses(t, op, c);
    ReverseBag(Vals(t, c));
  }

  lemma StepBag<C, K, V>(t: Table<C, K, V>, op: Op<C, K, V>, c: C)
    ensures Bag(Step(t, op).0, c) == BagStep(Bag(t, c), c, op, Step(t, op).1)
  {
    if op.DoFind? || op.c != c {
      OtherBag(t, op, c);
    } else if op.DoInsert? {
      InsertBag(t, c, op.e, op.s, op.mem);
    } else {
      DeleteBag(t, c);
    }
  }

  /** Over any run, what is stored under a key is exactly what was put and not reported as replaced or
      deleted: growing neither loses nor duplicates. */
  lemma {:induction false} RunKeepsBags<C, K, V>(t: Table<C, K, V>, ops: seq<Op<C, K, V>>, c: C)
    ensures Bag(After(t, ops), c) == BagAfter(Bag(t, c), c, ops, Results(t, ops))
    decreases |ops|
  {
    if ops != [] {
      StepBag(t, ops[0], c);
      RunKeepsBags(Step(t, ops[0]).0, ops[1..], c);
      assert Results(t, ops)[1..] == Results(Step(t, ops[0]).0, ops[1..]);
    }
  }

  // ---------------------------------------------------------------- which entry find returns

  predicate Grows<C, K, V>(t: Table<C, K, V>, op: Op<C, K, V>) {
    Step(t, op).0.bits != t.bits
  }

  function Growths<C, K, V>(t: Table<C, K, V>, ops: seq<Op<C, K, V>>): nat
    decreases |ops|
  {
    if ops == [] then 0 else (if Grows(t, ops[0]) then 1 else 0) + Growths(Step(t, ops[0]).0, ops[1..])
  }

  ghost predicate Untouched<C, K, V>(ops: seq<Op<C, K, V>>, c: C) {
    forall i :: 0 <= i < |ops| ==> ops[i].DoFind? || ops[i].c != c
  }

  /** `s` reversed `n` times. */
  function Flip<T>(s: seq<T>, n: nat): seq<T> {
    if n % 2 == 1 then Reverse(s) else s
  }

  lemma FlipMore<T>(s: seq<T>, m: nat, n: nat)
    requires m <= 1
    ensures Flip(Flip(s, m), n) == Flip(s, m + n)
  {
    ReverseTwice(s);
    Parity(m, n);
  }

  lemma ReverseTwice<T>(s: seq<T>)
    ensures Reverse(Reverse(s)) == s
  {
    var r := Reverse(s);
    var t := Reverse(r);
    forall i | 0 <= i < |s|
      ensures t[i] == s[i]
    {
      assert t[i] == r[|s| - 1 - i];
    }
  }

  lemma Parity(m: nat, n: nat)
    requires m <= 1
    ensures (m + n) % 2 == if m == 0 then n % 2 else 1 - n % 2
  {
  }

  lemma FlipChain<T>(v: seq<T>, m: nat, w: seq<T>, n: nat, r: seq<T>, total: nat)
    requires m <= 1 && w == Flip(v, m) && r == Flip(w, n) && total == m + n
    ensures r == Flip(v, total)
  {
    FlipMore(v, m, n);
  }

  lemma InsertReverses<C, K, V>(t: Table<C, K, V>, op: Op<C, K, V>, c: C)
    requires op.DoInsert? && op.c != c
    ensures
      var t' := Step(t, op).0;
      || (t'.bits == t.bits && Vals(t', c) == Vals(t, c))
      || (t'.bits == GrownBits(t.bits) && Vals(t', c) == Vals(Grown(t), c))
  {
    var es := Vals(t, op.c);
    if op.s != APPEND && es != [] {
      StoreVals(t, op.c, [op.e] + es[1..], t.sz, c);
    } else {
      StoreVals(WithSpace(t), op.c, [op.e] + Vals(WithSpace(t), op.c), t.sz + 1, c);
    }
  }

  lemma StepReverses<C, K, V>(t: Table<C, K, V>, op: Op<C, K, V>, c: C)
    requires op.DoFind? || op.c != c
    ensures Vals(Step(t, op).0, c) == Flip(Vals(t, c), if Grows(t, op) then 1 else 0)
  {
    if op.DoInsert? {
      InsertReverses(t, op, c);
      GrownVals(t, c);
    } else if op.DoDelete? && Vals(t, op.c) != [] {
      StoreVals(t, op.c, Vals(t, op.c)[1..], t.sz - 1, c);
    }
  }

  lemma UntouchedRest<C, K, V>(ops: seq<Op<C, K, V>>, c: C)
    requires ops != [] && Untouched(ops, c)
    ensures (ops[0].DoFind? || ops[0].c != c) && Untouched(ops[1..], c)
  {
  }

  /** While the entries of a key are left alone, each growth reverses them. */
  lemma {:induction false} RunReverses<C, K, V>(t: Table<C, K, V>, ops: seq<Op<C, K, V>>, c: C)
    requires Untouched(ops, c)
    ensures Vals(After(t, ops), c) == Flip(Vals(t, c), Growths(t, ops))
    decreases |ops|
  {
    if ops != [] {
      var t', first, rest := Step(t, ops[0]).0, (if Grows(t, ops[0]) then 1 else 0), ops[1..];
      UntouchedRest(ops, c);
      StepReverses(t, ops[0], c);
      RunReverses(t', rest, c);
      FlipChain(Vals(t, c), first, Vals(t', c), Growths(t', rest), Vals(After(t', rest), c), Growths(t, ops));
    }
  }

  /** The header of the hash map says that `hashmap__find` returns the entry inserted last. While the key
      is left alone after an insertion, whatever its strategy, this holds exactly while the table has
      grown an even number of times since, or when the entry found instead, the oldest, is equal. */
  lemma FindAfterInsert<C, K, V>(t: Table<C, K, V>, c: C, e: Entry<K, V>, s: Strategy, mem: Memory,
                                 ops: seq<Op<C, K, V>>)
    requires Insert(t, c, e, s, mem).1.err == 0 && Untouched(ops, c)
    ensures
      var t' := Insert(t, c, e, s, mem).0;
      var es := Vals(t', c);
      && es != [] && Find(t', c) == Some(e)
      && (Find(After(t', ops), c) == Some(e) <==> Growths(t', ops) % 2 == 0 || es[|es| - 1] == e)
  {
    var t' := Insert(t, c, e, s, mem).0;
    RunReverses(t', ops, c);
  }

  lemma AfterTwo<C, K, V>(t: Table<C, K, V>, ops: seq<Op<C, K, V>>)
    requires |ops| >= 2
    ensures After(t, ops) == After(Step(Step(t, ops[0]).0, ops[1]).0, ops[2..])
  {
    assert ops[1..][1..] == ops[2..];
  }

  const PLENTY := Memory(true, true)

  /** Two entries of key 7 in a new table. */
  lemma TwoAppended(a: Entry<nat, nat>, b: Entry<nat, nat>)
    ensures var t := Step(Step(Empty(), DoInsert(7, a, APPEND, PLENTY)).0, DoInsert(7, b, APPEND, PLENTY)).0;
      Vals(t, 7) == [b, a] && t.sz == 2 && t.bits == 2
  {
    var t := Step(Empty(), DoInsert(7, a, APPEND, PLENTY)).0;
    assert Pow2(2) == 4;
    assert Vals(t, 7) == [a] && t.sz == 1 && t.bits == 2;
  }

  /** Two entries of other keys make the table grow, and the older entry of 7 comes first. */
  lemma OldestComesFirst(t: Table<nat, nat, nat>, a: Entry<nat, nat>, b: Entry<nat, nat>, c: Entry<nat, nat>,
                         d: Entry<nat, nat>)
    requires Vals(t, 7) == [b, a] && t.sz == 2 && t.bits == 2
    ensures Find(Step(Step(t, DoInsert(8, c, APPEND, PLENTY)).0, DoInsert(9, d, APPEND, PLENTY)).0, 7) == Some(a)
  {
    var t' := Step(t, DoInsert(8, c, APPEND, PLENTY)).0;
    assert Pow2(2) == 4;
    assert Vals(t', 7) == [b, a] && t'.sz == 3 && t'.bits == 2;
    GrownVals(t', 7);
  }

  /** The claim fails on the fourth insertion into a new table. */
  lemma FindReturnsOldest()
    ensures
      var ops := [DoInsert(7, Entry(7, 1), APPEND, PLENTY), DoInsert(7, Entry(7, 2), APPEND, PLENTY),
                  DoInsert(8, Entry(8, 3), APPEND, PLENTY), DoInsert(9, Entry(9, 4), APPEND, PLENTY)];
      Find(After(Empty<nat, nat, nat>(), ops), 7) == Some(Entry(7, 1))
  {
    var ops := [DoInsert(7, Entry(7, 1), APPEND, PLENTY), DoInsert(7, Entry(7, 2), APPEND, PLENTY),
                DoInsert(8, Entry(8, 3), APPEND, PLENTY), DoInsert(9, Entry(9, 4), APPEND, PLENTY)];
    var t := Step(Step(Empty<nat, nat, nat>(), ops[0]).0, ops[1]).0;
    TwoAppended(Entry(7, 1), Entry(7, 2));
    OldestComesFirst(t, Entry(7, 1), Entry(7, 2), Entry(8, 3), Entry(9, 4));
    AfterTwo(Empty(), ops);
    AfterTwo(t, ops[2..]);
    assert ops[2..][2..] == [];
  }

  /** It fails after SET too: the entry set last is hidden behind the oldest one by the next growth. */
  lemma FindReturnsOldestAfterSet()
    ensures
      var ops := [DoInsert(7, Entry(7, 1), APPEND, PLENTY), DoInsert(7, Entry(7, 2), APPEND, PLENTY),
                  DoInsert(7, Entry(7, 3), SET, PLENTY),
                  DoInsert(8, Entry(8, 4), APPEND, PLENTY), DoInsert(9, Entry(9, 5), APPEND, PLENTY)];
      Find(After(Empty<nat, nat, nat>(), ops), 7) == Some(Entry(7, 1))
  {
    var ops := [DoInsert(7, Entry(7, 1), APPEND, PLENTY), DoInsert(7, Entry(7, 2), APPEND, PLENTY),
                DoInsert(7, Entry(7, 3), SET, PLENTY),
                DoInsert(8, Entry(8, 4), APPEND, PLENTY), DoInsert(9, Entry(9, 5), APPEND, PLENTY)];
    var t := Step(Step(Empty<nat, nat, nat>(), ops[0]).0, ops[1]).0;
    var t' := Step(t, ops[2]).0;
    TwoAppended(Entry(7, 1), Entry(7, 2));
    assert Vals(t', 7) == [Entry(7, 3), Entry(7, 1)] && t'.sz == 2 && t'.bits == 2;
    OldestComesFirst(t', Entry(7, 1), Entry(7, 3), Entry(8, 4), Entry(9, 5));
    AfterTwo(Empty(), ops);
    AfterTwo(t', ops[3..]);
    assert ops[2..][1..] == ops[3..] && ops[3..][2..] == [];
  }
}
