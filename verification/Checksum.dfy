/** The incremental ones'-complement checksum of `af_xdp_user.c`, against the sum of section 1 of
    RFC 1071 and the update of section 3 of RFC 1624. */
module Checksum {

  const ONES: int := 0xffff

  type Word = w: int | 0 <= w <= ONES

  function Not(w: Word): Word {
    ONES - w
  }

  /** `csum16_add`: 16-bit addition, and one more when it wrapped around. */
  function Add(csum: Word, addend: Word): Word {
    var res := (csum + addend) % 0x1_0000;
    (res + if res < addend then 1 else 0) % 0x1_0000
  }

  /** `csum16_sub`. */
  function Sub(csum: Word, addend: Word): Word {
    Add(csum, Not(addend))
  }

  /** What `csum_replace2` stores. */
  function Replace(sum: Word, was: Word, now: Word): Word {
    Not(Add(Sub(Not(sum), was), now))
  }

  // ---------------------------------------------------------------- the fresh checksum

  function Sum(m: seq<Word>): Word {
    if m == [] then 0 else Add(Sum(m[..|m| - 1]), m[|m| - 1])
  }

  function Fresh(m: seq<Word>): Word {
    Not(Sum(m))
  }

  /** The receiver's test: the words and the checksum add up to all ones. */
  predicate Accepted(m: seq<Word>, sum: Word) {
    Add(Sum(m), sum) == ONES
  }

  predicate AllZero(m: seq<Word>) {
    forall i :: 0 <= i < |m| ==> m[i] == 0
  }

  // ---------------------------------------------------------------- arithmetic modulo 65535

  function Total(m: seq<Word>): int {
    if m == [] then 0 else Total(m[..|m| - 1]) + m[|m| - 1]
  }

  predicate Congruent(x: int, y: int) {
    (x - y) % ONES == 0
  }

  lemma CongruentAdd(a: int, b: int, x: int, y: int)
    requires Congruent(a, b) && Congruent(x, y)
    ensures Congruent(a + x, b + y) && Congruent(a - x, b - y)
  {
    var k, l := (a - b) / ONES, (x - y) / ONES;
    assert a + x - (b + y) == ONES * (k + l) && a - x - (b - y) == ONES * (k - l);
  }

  lemma CongruentWords(a: Word, b: Word)
    requires Congruent(a, b)
    ensures a == b || (a == 0 && b == ONES) || (a == ONES && b == 0)
  {
  }

  /** End-around carry is addition modulo 65535, and gives zero only for two zeros. */
  lemma AddIs(a: Word, b: Word)
    ensures Add(a, b) == if a + b <= ONES then a + b else a + b - ONES
    ensures Congruent(Add(a, b), a + b)
    ensures Add(a, b) == 0 <==> a == 0 && b == 0
  {
  }

  lemma {:induction false} SumIs(m: seq<Word>)
    ensures Congruent(Sum(m), Total(m))
    ensures Sum(m) == 0 <==> AllZero(m)
  {
    if m != [] {
      var r, w := m[..|m| - 1], m[|m| - 1];
      SumIs(r);
      AddIs(Sum(r), w);
      CongruentAdd(Sum(r), Total(r), w, w);
      assert Congruent(Add(Sum(r), w), Total(r) + w) by {
        CongruentTrans(Add(Sum(r), w), Sum(r) + w, Total(r) + w);
      }
    }
  }

  lemma CongruentTrans(x: int, y: int, z: int)
    requires Congruent(x, y) && Congruent(y, z)
    ensures Congruent(x, z)
  {
    CongruentAdd(x, y, y, z);
  }

  lemma {:induction false} TotalUpdate(m: seq<Word>, i: nat, w: Word)
    requires i < |m|
    ensures Total(m[i := w]) == Total(m) - m[i] + w
  {
    var r := m[..|m| - 1];
    if i == |m| - 1 {
      assert m[i := w][..|m| - 1] == r;
    } else {
      assert m[i := w][..|m| - 1] == r[i := w];
      TotalUpdate(r, i, w);
    }
  }

  // ---------------------------------------------------------------- the incremental update

  /** Where `Replace` ends before the last complement. */
  lemma ReplaceIs(sum: Word, was: Word, now: Word)
    ensures Congruent(Not(Replace(sum, was, now)), Not(sum) - was + now)
    ensures Replace(sum, was, now) == ONES <==> sum == ONES && was == ONES && now == 0
  {
    var x, y := Not(sum), Sub(Not(sum), was);
    AddIs(x, Not(was));
    AddIs(y, now);
    CongruentAdd(y, x + Not(was), now, now);
    CongruentTrans(Add(y, now), y + now, x + Not(was) + now);
    assert Congruent(x + Not(was) + now, x - was + now);
    CongruentTrans(Add(y, now), x + Not(was) + now, x - was + now);
  }

  lemma AcceptedIs(m: seq<Word>, sum: Word)
    ensures Accepted(m, sum) <==> Congruent(sum, Fresh(m)) && !(Sum(m) == 0 && sum == 0)
  {
    AddIs(Sum(m), sum);
  }

  /** From any checksum a receiver accepts, the update is congruent to a fresh one. */
  lemma ReplaceIsCongruent(m: seq<Word>, sum: Word, i: nat, w: Word)
    requires i < |m| && Accepted(m, sum)
    ensures Congruent(Replace(sum, m[i], w), Fresh(m[i := w]))
  {
    AcceptedIs(m, sum);
    var m', z := m[i := w], Not(Replace(sum, m[i], w));
    SumIs(m);
    SumIs(m');
    TotalUpdate(m, i, w);
    ReplaceIs(sum, m[i], w);
    CongruentAdd(ONES, ONES, sum, Fresh(m));
    CongruentTrans(Not(sum), Sum(m), Total(m));
    CongruentAdd(Not(sum), Total(m), w - m[i], w - m[i]);
    CongruentTrans(z, Not(sum) - m[i] + w, Total(m'));
    CongruentAdd(0, 0, Sum(m'), Total(m'));
    CongruentAdd(Total(m'), Total(m'), Sum(m'), Total(m'));
    CongruentTrans(z, Total(m'), Sum(m')) by {
      CongruentSym(Sum(m'), Total(m'));
    }
    CongruentAdd(ONES, ONES, z, Sum(m'));
  }

  lemma CongruentSym(x: int, y: int)
    requires Congruent(x, y)
    ensures Congruent(y, x)
  {
    CongruentAdd(0, 0, x, y);
  }

  /** From the fresh checksum, the update is the fresh checksum of the new message exactly when that
      has a nonzero word; of an all-zero message it gives the other representation of zero. */
  lemma ReplaceIsFresh(m: seq<Word>, i: nat, w: Word)
    requires i < |m|
    ensures Replace(Fresh(m), m[i], w) == Fresh(m[i := w]) <==> !AllZero(m[i := w])
  {
    var m' := m[i := w];
    AcceptedIs(m, Fresh(m));
    SumIs(m);
    SumIs(m');
    ReplaceIs(Fresh(m), m[i], w);
    ReplaceIsCongruent(m, Fresh(m), i, w);
    CongruentWords(Replace(Fresh(m), m[i], w), Fresh(m'));
  }

  /** The receiver accepts the update exactly unless the new message is all zero and the update is zero. */
  lemma ReplaceIsAccepted(m: seq<Word>, sum: Word, i: nat, w: Word)
    requires i < |m| && Accepted(m, sum)
    ensures Accepted(m[i := w], Replace(sum, m[i], w)) <==>
            !AllZero(m[i := w]) || (sum == ONES && m[i] == ONES && w == 0)
  {
    var m' := m[i := w];
    AcceptedIs(m', Replace(sum, m[i], w));
    SumIs(m');
    ReplaceIs(sum, m[i], w);
    ReplaceIsCongruent(m, sum, i, w);
    CongruentWords(Replace(sum, m[i], w), Fresh(m'));
  }

  // ---------------------------------------------------------------- many updates

  datatype Edit = Edit(at: nat, word: Word)

  function Edited(m: seq<Word>, es: seq<Edit>): seq<Word>
    requires forall i :: 0 <= i < |es| ==> es[i].at < |m|
    decreases |es|
  {
    if es == [] then m else Edited(m[es[0].at := es[0].word], es[1..])
  }

  function Updated(m: seq<Word>, sum: Word, es: seq<Edit>): Word
    requires forall i :: 0 <= i < |es| ==> es[i].at < |m|
    decreases |es|
  {
    if es == [] then sum
    else Updated(m[es[0].at := es[0].word], Replace(sum, m[es[0].at], es[0].word), es[1..])
  }

  ghost predicate NeverZero(m: seq<Word>, es: seq<Edit>)
    requires forall i :: 0 <= i < |es| ==> es[i].at < |m|
    decreases |es|
  {
    es != [] ==> !AllZero(m[es[0].at := es[0].word]) && NeverZero(m[es[0].at := es[0].word], es[1..])
  }

  /** Any number of updates keeps the checksum fresh, as long as no message in between is all zero. */
  lemma {:induction false} UpdatesAreFresh(m: seq<Word>, es: seq<Edit>)
    requires forall i :: 0 <= i < |es| ==> es[i].at < |m|
    requires NeverZero(m, es)
    ensures Updated(m, Fresh(m), es) == Fresh(Edited(m, es))
    decreases |es|
  {
    if es != [] {
      ReplaceIsFresh(m, es[0].at, es[0].word);
      UpdatesAreFresh(m[es[0].at := es[0].word], es[1..]);
    }
  }

  // ---------------------------------------------------------------- byte order

  /** The word with its bytes swapped. */
  function Swap(w: Word): Word {
    w % 0x100 * 0x100 + w / 0x100
  }

  lemma SwapIs(w: Word)
    ensures Congruent(Swap(w), 0x100 * w) && (Swap(w) == 0 <==> w == 0) && Swap(Not(w)) == Not(Swap(w))
  {
    var h, l := w / 0x100, w % 0x100;
    assert w == 0x100 * h + l;
    assert 0x100 * w - Swap(w) == ONES * h;
    assert Not(w) == 0x100 * (0xff - h) + (0xff - l);
  }

  lemma ShiftIs(x: int, y: int)
    requires Congruent(x, y)
    ensures Congruent(0x100 * x, 0x100 * y)
  {
    assert 0x100 * x - 0x100 * y == ONES * (0x100 * ((x - y) / ONES));
  }

  lemma SumSwaps(a: Word, b: Word)
    ensures Congruent(Swap(Add(a, b)), Add(Swap(a), Swap(b)))
  {
    var x, y := Swap(Add(a, b)), Add(Swap(a), Swap(b));
    SwapIs(a);
    SwapIs(b);
    SwapIs(Add(a, b));
    AddIs(a, b);
    AddIs(Swap(a), Swap(b));
    ShiftIs(Add(a, b), a + b);
    CongruentTrans(x, 0x100 * Add(a, b), 0x100 * (a + b));
    CongruentAdd(Swap(a), 0x100 * a, Swap(b), 0x100 * b);
    CongruentTrans(y, Swap(a) + Swap(b), 0x100 * (a + b));
    CongruentSym(y, 0x100 * (a + b));
    CongruentTrans(x, 0x100 * (a + b), y);
  }

  /** The sum may be computed in either byte order. */
  lemma AddSwaps(a: Word, b: Word)
    ensures Swap(Add(a, b)) == Add(Swap(a), Swap(b))
  {
    SumSwaps(a, b);
    CongruentWords(Swap(Add(a, b)), Add(Swap(a), Swap(b)));
    SwapIs(a);
    SwapIs(b);
    SwapIs(Add(a, b));
    AddIs(a, b);
    AddIs(Swap(a), Swap(b));
  }

  /** So is the update: the program works on words in network order and never swaps them. */
  lemma ReplaceSwaps(sum: Word, was: Word, now: Word)
    ensures Replace(Swap(sum), Swap(was), Swap(now)) == Swap(Replace(sum, was, now))
  {
    SwapIs(sum);
    SwapIs(was);
    AddSwaps(Not(sum), Not(was));
    AddSwaps(Sub(Not(sum), was), now);
    SwapIs(Add(Sub(Not(sum), was), now));
  }

  // ---------------------------------------------------------------- the program

  method Csum16Add(csum: Word, addend: Word) returns (r: Word)
    ensures r == Add(csum, addend)
  {
    var res := csum;
    res := (res + addend) % 0x1_0000;
    r := (res + if res < addend then 1 else 0) % 0x1_0000;
  }

  method Csum16Sub(csum: Word, addend: Word) returns (r: Word)
    ensures r == Sub(csum, addend)
  {
    r := Csum16Add(csum, Not(addend));
  }

  /** `csum_replace2`, its pointer into the packet being an index. */
  method CsumReplace2(pkt: array<Word>, sum: nat, was: Word, now: Word)
    requires sum < pkt.Length
    modifies pkt
    ensures pkt[..] == old(pkt[..])[sum := Replace(old(pkt[sum]), was, now)]
  {
    var less := Csum16Sub(Not(pkt[sum]), was);
    var more := Csum16Add(less, now);
    pkt[sum] := Not(more);
  }
}
