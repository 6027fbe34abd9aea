/** The chains of the hash map: where `hash_bits` puts an entry, and what moving all entries to a larger
    table does to them. */
module HashChains {
  import opened Lists
  import opened HashMapSpec

  const GOLDEN: nat := 11400714819323198485
  const WORD: nat := 0x1_0000_0000_0000_0000

  lemma {:induction false} Pow2Split(a: nat, b: nat)
    ensures Pow2(a + b) == Pow2(a) * Pow2(b)
  {
    if a > 0 {
      Pow2Split(a - 1, b);
    }
  }

  lemma WordIs()
    ensures Pow2(64) == WORD
  {
    assert Pow2(4) == 16;
    Pow2Split(4, 4);
    Pow2Split(8, 8);
    Pow2Split(16, 16);
    Pow2Split(32, 32);
  }

  lemma WordSplit(a: nat, b: nat)
    requires a + b == 64
    ensures Pow2(a) * Pow2(b) == WORD
  {
    WordIs();
    Pow2Split(a, b);
  }

  function Product(h: nat): (p: nat)
    ensures p < WORD
  {
    h * GOLDEN % WORD
  }

  /** `hash_bits`: the upper bits of the product, on 64-bit words. */
  function HashBits(h: nat, bits: nat): (b: nat)
    requires 1 <= bits <= 64
    ensures b < Pow2(bits)
    ensures b * Pow2(64 - bits) <= h * GOLDEN % WORD < (b + 1) * Pow2(64 - bits)
  {
    UpperBits(Product(h), bits);
    Quotient(Product(h), Pow2(64 - bits));
    Product(h) / Pow2(64 - bits)
  }

  lemma UpperBits(p: nat, bits: nat)
    requires 1 <= bits <= 64 && p < WORD
    ensures 0 <= p / Pow2(64 - bits) < Pow2(bits)
  {
    var d, n := Pow2(64 - bits), Pow2(bits);
    assert n * d == WORD by {
      WordSplit(bits, 64 - bits);
    }
    QuotientBound(p, d, n);
  }

  lemma Quotient(x: nat, d: nat)
    requires d > 0
    ensures x / d * d <= x < (x / d + 1) * d
  {
    assert x == x / d * d + x % d;
    assert (x / d + 1) * d == x / d * d + d;
  }

  lemma MulGrows(a: nat, b: nat, d: nat)
    ensures a >= b ==> a * d >= b * d
  {
    if a >= b {
      assert a * d == b * d + (a - b) * d;
    }
  }

  lemma QuotientBound(x: nat, d: nat, n: nat)
    requires d > 0 && x < n * d
    ensures 0 <= x / d < n
  {
    MulGrows(x / d, n, d);
    assert x == x / d * d + x % d;
  }

  // ---------------------------------------------------------------- chains

  type Chain<K, V> = seq<Entry<K, V>>

  /** The entries of `es` whose key has content `c`, in order. */
  function Of<C(==), K, V>(content: K -> C, es: Chain<K, V>, c: C): Chain<K, V> {
    if es == [] then []
    else (if content(es[0].key) == c then [es[0]] else []) + Of(content, es[1..], c)
  }

  lemma {:induction false} OfConcat<C, K, V>(content: K -> C, a: Chain<K, V>, b: Chain<K, V>, c: C)
    ensures Of(content, a + b, c) == Of(content, a, c) + Of(content, b, c)
  {
    if a == [] {
      assert a + b == b;
    } else {
      assert (a + b)[1..] == a[1..] + b && (a + b)[0] == a[0];
      OfConcat(content, a[1..], b, c);
      Assoc(if content(a[0].key) == c then [a[0]] else [], Of(content, a[1..], c), Of(content, b, c));
    }
  }

  lemma {:induction false} OfNone<C, K, V>(content: K -> C, es: Chain<K, V>, c: C)
    requires forall i :: 0 <= i < |es| ==> content(es[i].key) != c
    ensures Of(content, es, c) == []
  {
    if es != [] {
      OfNone(content, es[1..], c);
    }
  }

  lemma OfOne<C, K, V>(content: K -> C, e: Entry<K, V>, c: C)
    ensures Of(content, [e], c) == if content(e.key) == c then [e] else []
  {
    assert [e][1..] == [];
  }

  lemma OfAround<C, K, V>(content: K -> C, a: Chain<K, V>, e: Entry<K, V>, b: Chain<K, V>, c: C)
    ensures Of(content, a + [e] + b, c)
            == Of(content, a, c) + (if content(e.key) == c then [e] else []) + Of(content, b, c)
  {
    OfConcat(content, a + [e], b, c);
    OfConcat(content, a, [e], c);
    OfOne(content, e, c);
  }

  lemma OfSnoc<C, K, V>(content: K -> C, es: Chain<K, V>, i: nat, c: C)
    requires i < |es|
    ensures Of(content, es[..i + 1], c) == Of(content, es[..i], c) + if content(es[i].key) == c then [es[i]] else []
  {
    assert es[..i + 1] == es[..i] + [es[i]];
    OfConcat(content, es[..i], [es[i]], c);
    OfOne(content, es[i], c);
  }

  /** `es[i]` is the first entry of content `c`. */
  ghost predicate FirstOf<C, K, V>(content: K -> C, es: Chain<K, V>, i: nat, c: C) {
    && i < |es| && content(es[i].key) == c
    && forall j :: 0 <= j < i ==> content(es[j].key) != c
  }

  lemma FirstOfIs<C, K, V>(content: K -> C, es: Chain<K, V>, i: nat, c: C)
    requires FirstOf(content, es, i, c)
    ensures Of(content, es, c) == [es[i]] + Of(content, es[i + 1..], c)
  {
    assert es == es[..i] + [es[i]] + es[i + 1..];
    OfAround(content, es[..i], es[i], es[i + 1..], c);
    OfNone(content, es[..i], c);
  }

  lemma ReplaceFirst<C, K, V>(content: K -> C, es: Chain<K, V>, i: nat, c: C, e: Entry<K, V>, b: C)
    requires FirstOf(content, es, i, c) && content(e.key) == c
    ensures Of(content, es, c) != []
    ensures Of(content, es[i := e], b) == if b == c then [e] + Of(content, es, c)[1..] else Of(content, es, b)
  {
    FirstOfIs(content, es, i, c);
    FirstOfIs(content, es[i := e], i, c);
    assert es[i := e][i + 1..] == es[i + 1..];
    assert es == es[..i] + [es[i]] + es[i + 1..];
    assert es[i := e] == es[..i] + [e] + es[i + 1..];
    OfAround(content, es[..i], es[i], es[i + 1..], b);
    OfAround(content, es[..i], e, es[i + 1..], b);
  }

  lemma RemoveFirst<C, K, V>(content: K -> C, es: Chain<K, V>, i: nat, c: C, b: C)
    requires FirstOf(content, es, i, c)
    ensures Of(content, es, c) != []
    ensures Of(content, RemoveAt(es, i), b) == if b == c then Of(content, es, c)[1..] else Of(content, es, b)
  {
    FirstOfIs(content, es, i, c);
    var before, after := es[..i], es[i + 1..];
    assert es == before + [es[i]] + after;
    OfConcat(content, before, after, b);
    if b == c {
      OfNone(content, before, c);
      assert Of(content, before + after, c) == Of(content, after, c);
    } else {
      OfAround(content, before, es[i], after, b);
      assert Of(content, before, b) + [] == Of(content, before, b);
    }
  }

  // ---------------------------------------------------------------- all chains

  function Flat<T>(chains: seq<seq<T>>): seq<T> {
    if chains == [] then [] else chains[0] + Flat(chains[1..])
  }

  lemma {:induction false} FlatSnoc<T>(chains: seq<seq<T>>, s: seq<T>)
    ensures Flat(chains + [s]) == Flat(chains) + s
  {
    if chains == [] {
      assert Flat([s]) == s + Flat([s][1..]);
    } else {
      assert (chains + [s])[1..] == chains[1..] + [s];
      FlatSnoc(chains[1..], s);
    }
  }

  lemma {:induction false} FlatUpdate<T>(chains: seq<seq<T>>, b: nat, s: seq<T>)
    requires b < |chains|
    ensures |Flat(chains[b := s])| == |Flat(chains)| - |chains[b]| + |s|
  {
    if b == 0 {
      assert chains[b := s][1..] == chains[1..];
    } else {
      assert chains[b := s][1..] == chains[1..][b - 1 := s];
      FlatUpdate(chains[1..], b - 1, s);
    }
  }

  lemma {:induction false} FlatOf<C, K, V>(content: K -> C, chains: seq<Chain<K, V>>, b: nat, c: C)
    requires b < |chains|
    requires forall i, j :: 0 <= i < |chains| && i != b && 0 <= j < |chains[i]| ==> content(chains[i][j].key) != c
    ensures Of(content, Flat(chains), c) == Of(content, chains[b], c)
  {
    var rest := chains[1..];
    OfConcat(content, chains[0], Flat(rest), c);
    if b == 0 {
      FlatOfNone(content, rest, c);
    } else {
      OfNone(content, chains[0], c);
      FlatOf(content, rest, b - 1, c);
    }
  }

  lemma {:induction false} FlatOfNone<C, K, V>(content: K -> C, chains: seq<Chain<K, V>>, c: C)
    requires forall i, j :: 0 <= i < |chains| && 0 <= j < |chains[i]| ==> content(chains[i][j].key) != c
    ensures Of(content, Flat(chains), c) == []
  {
    if chains != [] {
      OfConcat(content, chains[0], Flat(chains[1..]), c);
      OfNone(content, chains[0], c);
      FlatOfNone(content, chains[1..], c);
    }
  }

  /** Every entry is in the chain its key hashes to. */
  ghost predicate Placed<C, K, V>(content: K -> C, hash: C -> nat, bits: nat, chains: seq<Chain<K, V>>) {
    && 1 <= bits <= 64 && |chains| == Pow2(bits)
    && forall b, j :: 0 <= b < |chains| && 0 <= j < |chains[b]| ==>
         HashBits(hash(content(chains[b][j].key)), bits) == b
  }

  // ---------------------------------------------------------------- growing

  /** Chain `b` of the new table once `done` was moved to it: each entry became the head of its chain. */
  function Pushed<C, K, V>(content: K -> C, hash: C -> nat, bits: nat, done: Chain<K, V>, b: nat): Chain<K, V>
    requires 1 <= bits <= 64
    decreases |done|
  {
    if done == [] then []
    else
      var e := done[|done| - 1];
      (if HashBits(hash(content(e.key)), bits) == b then [e] else [])
      + Pushed(content, hash, bits, done[..|done| - 1], b)
  }

  lemma {:induction false} PushedInPlace<C, K, V>(content: K -> C, hash: C -> nat, bits: nat,
                                                done: Chain<K, V>, b: nat, j: nat)
    requires 1 <= bits <= 64 && j < |Pushed(content, hash, bits, done, b)|
    ensures HashBits(hash(content(Pushed(content, hash, bits, done, b)[j].key)), bits) == b
    decreases |done|
  {
    var e := done[|done| - 1];
    if HashBits(hash(content(e.key)), bits) != b {
      PushedInPlace(content, hash, bits, done[..|done| - 1], b, j);
    } else if j > 0 {
      PushedInPlace(content, hash, bits, done[..|done| - 1], b, j - 1);
    }
  }

  lemma {:induction false} PushedOf<C, K, V>(content: K -> C, hash: C -> nat, bits: nat, done: Chain<K, V>, c: C)
    requires 1 <= bits <= 64
    ensures Of(content, Pushed(content, hash, bits, done, HashBits(hash(c), bits)), c) == Reverse(Of(content, done, c))
    decreases |done|
  {
    var b := HashBits(hash(c), bits);
    if done != [] {
      var e, rest := done[|done| - 1], done[..|done| - 1];
      PushedOf(content, hash, bits, rest, c);
      assert done == rest + [e];
      OfConcat(content, rest, [e], c);
      OfOne(content, e, c);
      OfConcat(content, if HashBits(hash(content(e.key)), bits) == b then [e] else [],
               Pushed(content, hash, bits, rest, b), c);
      if content(e.key) == c {
        ReverseSnoc(Of(content, rest, c), e);
      } else {
        assert Of(content, rest, c) + [] == Of(content, rest, c);
      }
    }
  }

  /** The new table while `hashmap_grow` moves entries to it. */
  ghost predicate Moving<C, K, V>(content: K -> C, hash: C -> nat, bits: nat, done: Chain<K, V>,
                                  chains: seq<Chain<K, V>>) {
    && 1 <= bits <= 64 && |chains| == Pow2(bits) && |Flat(chains)| == |done|
    && forall b :: 0 <= b < |chains| ==> chains[b] == Pushed(content, hash, bits, done, b)
  }

  lemma {:induction false} FlatEmpty<T>(chains: seq<seq<T>>)
    requires forall b :: 0 <= b < |chains| ==> chains[b] == []
    ensures Flat(chains) == []
  {
    if chains != [] {
      FlatEmpty(chains[1..]);
    }
  }

  lemma MoveOne<C, K, V>(content: K -> C, hash: C -> nat, bits: nat, done: Chain<K, V>,
                         chains: seq<Chain<K, V>>, e: Entry<K, V>)
    requires Moving(content, hash, bits, done, chains)
    ensures
      var b := HashBits(hash(content(e.key)), bits);
      Moving(content, hash, bits, done + [e], chains[b := [e] + chains[b]])
  {
    var b := HashBits(hash(content(e.key)), bits);
    FlatUpdate(chains, b, [e] + chains[b]);
    assert (done + [e])[..|done|] == done;
    forall i | 0 <= i < |chains|
      ensures chains[b := [e] + chains[b]][i] == Pushed(content, hash, bits, done + [e], i)
    {
      assert i != b ==> [] + chains[i] == chains[i];
    }
  }

  lemma MovedIsPlaced<C, K, V>(content: K -> C, hash: C -> nat, bits: nat, done: Chain<K, V>, chains: seq<Chain<K, V>>)
    requires Moving(content, hash, bits, done, chains)
    ensures Placed(content, hash, bits, chains)
  {
    forall b, j | 0 <= b < |chains| && 0 <= j < |chains[b]|
      ensures HashBits(hash(content(chains[b][j].key)), bits) == b
    {
      PushedInPlace(content, hash, bits, done, b, j);
    }
  }

  // ---------------------------------------------------------------- rewriting one chain

  /** Chain `es'` holds `vs` for content `c` and what `es` does for every other. */
  ghost predicate Rewrites<C(!new), K, V>(content: K -> C, es: Chain<K, V>, es': Chain<K, V>, c: C, vs: Chain<K, V>) {
    && (forall j :: 0 <= j < |es'| ==> content(es'[j].key) == c || es'[j] in es)
    && (forall d {:trigger Of(content, es', d)} :: Of(content, es', d) == if d == c then vs else Of(content, es, d))
  }

  lemma ReplaceRewrites<C(!new), K, V>(content: K -> C, es: Chain<K, V>, i: nat, c: C, e: Entry<K, V>)
    requires FirstOf(content, es, i, c) && content(e.key) == c
    ensures Of(content, es, c) != []
    ensures Rewrites(content, es, es[i := e], c, [e] + Of(content, es, c)[1..])
  {
    ReplaceFirst(content, es, i, c, e, c);
    forall d
      ensures Of(content, es[i := e], d) == if d == c then [e] + Of(content, es, c)[1..] else Of(content, es, d)
    {
      ReplaceFirst(content, es, i, c, e, d);
    }
  }

  lemma RemoveRewrites<C(!new), K, V>(content: K -> C, es: Chain<K, V>, i: nat, c: C)
    requires FirstOf(content, es, i, c)
    ensures Of(content, es, c) != []
    ensures Rewrites(content, es, RemoveAt(es, i), c, Of(content, es, c)[1..])
  {
    RemoveFirst(content, es, i, c, c);
    forall d
      ensures Of(content, RemoveAt(es, i), d) == if d == c then Of(content, es, c)[1..] else Of(content, es, d)
    {
      RemoveFirst(content, es, i, c, d);
    }
  }

  lemma PushRewrites<C(!new), K, V>(content: K -> C, es: Chain<K, V>, e: Entry<K, V>)
    ensures Rewrites(content, es, [e] + es, content(e.key), [e] + Of(content, es, content(e.key)))
  {
    var es' := [e] + es;
    assert es'[1..] == es;
    forall d
      ensures Of(content, es', d)
              == if d == content(e.key) then [e] + Of(content, es, content(e.key)) else Of(content, es, d)
    {
      assert [] + Of(content, es, d) == Of(content, es, d);
    }
  }

  /** The effect on the whole table. */
  lemma RewritesAll<C(!new), K, V>(content: K -> C, hash: C -> nat, bits: nat, cs: seq<Chain<K, V>>,
                                   es: Chain<K, V>, c: C, vs: Chain<K, V>)
    requires Placed(content, hash, bits, cs)
    requires Rewrites(content, cs[HashBits(hash(c), bits)], es, c, vs)
    ensures
      var cs' := cs[HashBits(hash(c), bits) := es];
      && Placed(content, hash, bits, cs')
      && forall d {:trigger Of(content, Flat(cs'), d)} ::
           Of(content, Flat(cs'), d) == if d == c then vs else Of(content, Flat(cs), d)
  {
    var b := HashBits(hash(c), bits);
    var cs' := cs[b := es];
    RewrittenPlaced(content, hash, bits, cs, es, c, vs);
    forall d
      ensures Of(content, Flat(cs'), d) == if d == c then vs else Of(content, Flat(cs), d)
    {
      FlatOf(content, cs, HashBits(hash(d), bits), d);
      FlatOf(content, cs', HashBits(hash(d), bits), d);
    }
  }

  lemma RewrittenPlaced<C(!new), K, V>(content: K -> C, hash: C -> nat, bits: nat,
                                       cs: seq<Chain<K, V>>, es: Chain<K, V>, c: C, vs: Chain<K, V>)
    requires Placed(content, hash, bits, cs)
    requires Rewrites(content, cs[HashBits(hash(c), bits)], es, c, vs)
    ensures Placed(content, hash, bits, cs[HashBits(hash(c), bits) := es])
  {
    var b := HashBits(hash(c), bits);
    forall j | 0 <= j < |es|
      ensures HashBits(hash(content(es[j].key)), bits) == b
    {
      if content(es[j].key) != c {
        var k :| 0 <= k < |cs[b]| && cs[b][k] == es[j];
      }
    }
  }
}
