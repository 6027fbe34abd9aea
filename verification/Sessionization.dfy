/** What the flow monitor is for, stated without its data structures: the packets of each key, cut
    where two successive ones are more than the expiration time apart, one record per piece. The
    second half shows that the two things a packet can do to the list of all records, update the
    newest record of its key or open a new one, keep that list equal to this definition. */
module Sessionization {
  import opened FlowTypes
  import opened Lists

  function Last<T>(s: seq<T>): T
    requires s != []
  {
    s[|s| - 1]
  }

  function Front<T>(s: seq<T>): seq<T>
    requires s != []
  {
    s[..|s| - 1]
  }

  // ---------------------------------------------------------------- the reference definition

  function PacketsOf(ps: seq<Packet>, k: Key): seq<Packet> {
    if ps == [] then []
    else PacketsOf(Front(ps), k) + if Last(ps).key == k then [Last(ps)] else []
  }

  function RecsOf(rs: seq<Rec>, k: Key): seq<Rec> {
    if rs == [] then []
    else RecsOf(Front(rs), k) + if Last(rs).key == k then [Last(rs)] else []
  }

  /** Cut a packet sequence at every gap greater than the expiration time. */
  function Segments(ps: seq<Packet>): (g: seq<seq<Packet>>)
    ensures forall i :: 0 <= i < |g| ==> g[i] != []
    ensures ps == [] <==> g == []
    ensures ps != [] ==> Last(Last(g)) == Last(ps)
  {
    if ps == [] then []
    else
      var g, p := Segments(Front(ps)), Last(ps);
      if g != [] && p.ts - Last(Last(g)).ts <= EXPIRATION_FLOW_TIME
      then Front(g) + [Last(g) + [p]]
      else g + [[p]]
  }

  function Bytes(ps: seq<Packet>): nat {
    if ps == [] then 0 else Bytes(Front(ps)) + Last(ps).len
  }

  /** The record of one piece, with the widths of `npack` (32 bits) and `nbytes` (64 bits). */
  function Summary(seg: seq<Packet>): Rec
    requires seg != []
  {
    Rec(seg[0].key, seg[0].ts, Last(seg).ts, |seg| % U32, Bytes(seg) % U64)
  }

  function Summaries(g: seq<seq<Packet>>): seq<Rec>
    requires forall i :: 0 <= i < |g| ==> g[i] != []
  {
    if g == [] then [] else Summaries(Front(g)) + [Summary(Last(g))]
  }

  /** `recs` is exactly what the packets `ps` must give, key by key and in order. */
  ghost predicate Sessionized(recs: seq<Rec>, ps: seq<Packet>) {
    forall k: Key :: RecsOf(recs, k) == Summaries(Segments(PacketsOf(ps, k)))
  }

  // ---------------------------------------------------------------- Segments is the split meant

  function Flatten<T>(g: seq<seq<T>>): seq<T> {
    if g == [] then [] else Flatten(Front(g)) + Last(g)
  }

  ghost predicate NoGapInside(seg: seq<Packet>) {
    forall j :: 0 < j < |seg| ==> seg[j].ts - seg[j - 1].ts <= EXPIRATION_FLOW_TIME
  }

  /** `g` cuts `ps` exactly at the gaps above the limit, and loses, repeats or moves no packet. */
  ghost predicate IsSplit(g: seq<seq<Packet>>, ps: seq<Packet>) {
    && Flatten(g) == ps
    && (forall i :: 0 <= i < |g| ==> g[i] != [] && NoGapInside(g[i]))
    && (forall i :: 0 < i < |g| ==> g[i][0].ts - Last(g[i - 1]).ts > EXPIRATION_FLOW_TIME)
  }

  lemma FlattenSnoc<T>(g: seq<seq<T>>, seg: seq<T>)
    ensures Flatten(g + [seg]) == Flatten(g) + seg
  {
    assert Front(g + [seg]) == g;
  }

  lemma SplitExtended(g: seq<seq<Packet>>, ps: seq<Packet>, p: Packet)
    requires IsSplit(g, ps) && g != [] && p.ts - Last(Last(g)).ts <= EXPIRATION_FLOW_TIME
    ensures IsSplit(Front(g) + [Last(g) + [p]], ps + [p])
  {
    assert g == Front(g) + [Last(g)];
    FlattenSnoc(Front(g), Last(g));
    FlattenSnoc(Front(g), Last(g) + [p]);
    var h: seq<seq<Packet>> := Front(g) + [Last(g) + [p]];
    assert NoGapInside(Last(g) + [p]);
    forall i: nat | 0 < i < |h|
      ensures h[i][0].ts - Last(h[i - 1]).ts > EXPIRATION_FLOW_TIME
    {
      assert h[i][0] == g[i][0] && h[i - 1] == g[i - 1];
    }
  }

  lemma SplitOpened(g: seq<seq<Packet>>, ps: seq<Packet>, p: Packet)
    requires IsSplit(g, ps)
    requires g != [] ==> p.ts - Last(Last(g)).ts > EXPIRATION_FLOW_TIME
    ensures IsSplit(g + [[p]], ps + [p])
  {
    FlattenSnoc(g, [p]);
    assert NoGapInside([p]);
    var h: seq<seq<Packet>> := g + [[p]];
    forall i: nat | 0 < i < |h|
      ensures h[i][0].ts - Last(h[i - 1]).ts > EXPIRATION_FLOW_TIME
    {
      assert h[i - 1] == g[i - 1];
      assert h[i] == if i < |g| then g[i] else [p];
    }
  }

  lemma {:induction false} SegmentsCutExactlyAtGaps(ps: seq<Packet>)
    ensures IsSplit(Segments(ps), ps)
  {
    if ps != [] {
      SegmentsCutExactlyAtGaps(Front(ps));
      var g, p := Segments(Front(ps)), Last(ps);
      assert ps == Front(ps) + [p];
      if g != [] && p.ts - Last(Last(g)).ts <= EXPIRATION_FLOW_TIME {
        SplitExtended(g, Front(ps), p);
      } else {
        SplitOpened(g, Front(ps), p);
      }
    }
  }

  /** There is no other such split, so `Segments` is the split. */
  lemma {:induction false} SplitIsUnique(g: seq<seq<Packet>>, ps: seq<Packet>)
    requires IsSplit(g, ps)
    ensures g == Segments(ps)
    decreases |ps|
  {
    if g != [] {
      assert g == Front(g) + [Last(g)];
      if |Last(g)| == 1 {
        SplitWithoutSingle(g, ps);
        SplitIsUnique(Front(g), Front(ps));
      } else {
        var h: seq<seq<Packet>> := Front(g) + [Front(Last(g))];
        SplitWithoutLast(g, ps);
        SplitIsUnique(h, Front(ps));
        assert Front(h) == Front(g) && Last(h) + [Last(ps)] == Last(g);
      }
    }
  }

  lemma SplitWithoutSingle(g: seq<seq<Packet>>, ps: seq<Packet>)
    requires IsSplit(g, ps) && g != [] && |Last(g)| == 1
    ensures ps != [] && IsSplit(Front(g), Front(ps)) && Last(g) == [Last(ps)]
    ensures Front(g) != [] ==> Last(ps).ts - Last(Last(Front(g))).ts > EXPIRATION_FLOW_TIME
  {
    assert ps == Flatten(Front(g)) + Last(g);
    assert Front(ps) == Flatten(Front(g));
  }

  lemma SplitWithoutLast(g: seq<seq<Packet>>, ps: seq<Packet>)
    requires IsSplit(g, ps) && g != [] && |Last(g)| > 1
    ensures ps != [] && IsSplit(Front(g) + [Front(Last(g))], Front(ps))
    ensures Last(g) == Front(Last(g)) + [Last(ps)]
    ensures Last(ps).ts - Last(Front(Last(g))).ts <= EXPIRATION_FLOW_TIME
  {
    var seg := Last(g);
    var h: seq<seq<Packet>> := Front(g) + [Front(seg)];
    assert seg == Front(seg) + [Last(seg)];
    assert ps == Flatten(Front(g)) + Front(seg) + [Last(seg)];
    FlattenSnoc(Front(g), Front(seg));
    assert NoGapInside(seg);
    forall i: nat | 0 < i < |h|
      ensures h[i][0].ts - Last(h[i - 1]).ts > EXPIRATION_FLOW_TIME
    {
      assert h[i][0] == g[i][0] && h[i - 1] == g[i - 1];
    }
  }

  // ---------------------------------------------------------------- filtering

  lemma {:induction false} RecsOfConcat(a: seq<Rec>, b: seq<Rec>, k: Key)
    ensures RecsOf(a + b, k) == RecsOf(a, k) + RecsOf(b, k)
  {
    if b == [] {
      assert a + b == a;
    } else {
      assert Front(a + b) == a + Front(b);
      RecsOfConcat(a, Front(b), k);
    }
  }

  lemma RecsOfSingle(r: Rec, k: Key)
    ensures RecsOf([r], k) == if r.key == k then [r] else []
  {
    assert Front([r]) == [];
  }

  lemma PacketsOfSnoc(ps: seq<Packet>, p: Packet, k: Key)
    ensures PacketsOf(ps + [p], k) == PacketsOf(ps, k) + if p.key == k then [p] else []
  {
    assert Front(ps + [p]) == ps;
  }

  lemma {:induction false} PacketsOfKey(ps: seq<Packet>, k: Key)
    ensures forall i :: 0 <= i < |PacketsOf(ps, k)| ==> PacketsOf(ps, k)[i].key == k
  {
    if ps != [] {
      PacketsOfKey(Front(ps), k);
    }
  }

  lemma {:induction false} RecsOfNone(rs: seq<Rec>, k: Key)
    requires forall i :: 0 <= i < |rs| ==> rs[i].key != k
    ensures RecsOf(rs, k) == []
  {
    if rs != [] {
      RecsOfNone(Front(rs), k);
    }
  }

  /** The newest record of a key is the last one `RecsOf` lists. */
  lemma RecsOfNewest(rs: seq<Rec>, i: nat, k: Key)
    requires i < |rs| && rs[i].key == k
    requires forall j :: i < j < |rs| ==> rs[j].key != k
    ensures RecsOf(rs, k) == RecsOf(rs[..i], k) + [rs[i]]
    ensures RecsOf(RemoveAt(rs, i), k) == RecsOf(rs[..i], k)
  {
    assert rs == rs[..i] + [rs[i]] + rs[i + 1..];
    RecsOfConcat(rs[..i] + [rs[i]], rs[i + 1..], k);
    RecsOfConcat(rs[..i], [rs[i]], k);
    RecsOfConcat(rs[..i], rs[i + 1..], k);
    RecsOfNone(rs[i + 1..], k);
    RecsOfSingle(rs[i], k);
  }

  lemma RecsOfOther(rs: seq<Rec>, i: nat, k: Key)
    requires i < |rs| && rs[i].key != k
    ensures RecsOf(RemoveAt(rs, i), k) == RecsOf(rs, k)
  {
    assert rs == rs[..i] + [rs[i]] + rs[i + 1..];
    RecsOfConcat(rs[..i] + [rs[i]], rs[i + 1..], k);
    RecsOfConcat(rs[..i], [rs[i]], k);
    RecsOfConcat(rs[..i], rs[i + 1..], k);
    RecsOfSingle(rs[i], k);
  }

  // ---------------------------------------------------------------- one more packet of a key

  function Opened(p: Packet): Rec {
    Rec(p.key, p.ts, p.ts, 1, p.len)
  }

  /** What `updateFlowTable` does to a record. */
  function Bumped(r: Rec, p: Packet): Rec {
    Rec(r.key, r.first, p.ts, (r.npack + 1) % U32, (r.nbytes + p.len) % U64)
  }

  lemma SummarySnoc(seg: seq<Packet>, p: Packet)
    requires seg != []
    ensures Summary(seg + [p]) == Bumped(Summary(seg), p)
  {
    assert Front(seg + [p]) == seg;
    ModAdd(|seg|, 1, U32);
    ModAdd(Bytes(seg), p.len, U64);
  }

  lemma ModAdd(a: nat, b: nat, m: nat)
    requires m > 0
    ensures (a % m + b) % m == (a + b) % m
  {
    var q, r := a / m, a % m;
    assert a == m * q + r;
    var q', r' := (r + b) / m, (r + b) % m;
    assert a + b == m * q + m * q' + r' == m * (q + q') + r';
    DivModUnique(a + b, m, q + q', r');
  }

  lemma MulBound(m: int, d: int)
    requires m >= 0
    ensures d >= 1 ==> m * d >= m
    ensures d <= -1 ==> m * d <= -m
  {
  }

  lemma DivModUnique(x: nat, m: nat, q: nat, r: nat)
    requires r < m && x == m * q + r
    ensures x / m == q && x % m == r
  {
    var d := q - x / m;
    MulBound(m, d);
    assert m * d == m * q - m * (x / m) == x % m - r;
  }

  lemma SummariesSnoc(g: seq<seq<Packet>>, seg: seq<Packet>)
    requires seg != [] && forall i :: 0 <= i < |g| ==> g[i] != []
    ensures Summaries(g + [seg]) == Summaries(g) + [Summary(seg)]
  {
    assert Front(g + [seg]) == g;
  }

  /** A packet within the limit extends the last piece. */
  lemma SegmentsExtend(ps: seq<Packet>, p: Packet)
    requires ps != [] && p.ts - Last(ps).ts <= EXPIRATION_FLOW_TIME
    ensures Summaries(Segments(ps)) != []
    ensures Summaries(Segments(ps + [p])) ==
      Front(Summaries(Segments(ps))) + [Bumped(Last(Summaries(Segments(ps))), p)]
  {
    var g := Segments(ps);
    assert Front(ps + [p]) == ps && Last(ps + [p]) == p;
    assert Segments(ps + [p]) == Front(g) + [Last(g) + [p]];
    SummariesSnoc(Front(g), Last(g) + [p]);
    SummarySnoc(Last(g), p);
  }

  lemma SummarySingle(p: Packet)
    ensures Summary([p]) == Opened(p)
  {
    assert Front([p]) == [];
    assert Bytes([p]) == Bytes([]) + p.len;
  }

  /** Any other packet opens a piece of its own. */
  lemma SegmentsOpen(ps: seq<Packet>, p: Packet)
    requires ps == [] || p.ts - Last(ps).ts > EXPIRATION_FLOW_TIME
    ensures Summaries(Segments(ps + [p])) == Summaries(Segments(ps)) + [Opened(p)]
  {
    assert Front(ps + [p]) == ps && Last(ps + [p]) == p;
    assert Segments(ps + [p]) == Segments(ps) + [[p]];
    SummariesSnoc(Segments(ps), [p]);
    SummarySingle(p);
  }

  lemma SummariesLast(ps: seq<Packet>)
    ensures ps == [] <==> Summaries(Segments(ps)) == []
    ensures ps != [] ==> Last(Summaries(Segments(ps))).last == Last(ps).ts
  {
  }

  // ---------------------------------------------------------------- one more packet of the run

  /** No record of `p`'s key can still take `p`. */
  ghost predicate AllExpired(recs: seq<Rec>, k: Key, now: nat) {
    forall i :: 0 <= i < |recs| && recs[i].key == k ==> recs[i].last + EXPIRATION_FLOW_TIME < now
  }

  lemma {:induction false} LastRecIsSome(recs: seq<Rec>, k: Key)
    requires RecsOf(recs, k) != []
    ensures exists i :: 0 <= i < |recs| && recs[i].key == k && recs[i] == Last(RecsOf(recs, k))
  {
    if Last(recs).key == k {
      assert recs[|recs| - 1] == Last(RecsOf(recs, k));
    } else {
      LastRecIsSome(Front(recs), k);
      var i :| 0 <= i < |Front(recs)| && Front(recs)[i].key == k && Front(recs)[i] == Last(RecsOf(Front(recs), k));
      assert recs[i].key == k && recs[i] == Last(RecsOf(recs, k));
    }
  }

  lemma AcceptOpening(recs: seq<Rec>, ps: seq<Packet>, p: Packet)
    requires Sessionized(recs, ps) && AllExpired(recs, p.key, p.ts)
    ensures Sessionized(recs + [Opened(p)], ps + [p])
  {
    forall k: Key
      ensures RecsOf(recs + [Opened(p)], k) == Summaries(Segments(PacketsOf(ps + [p], k)))
    {
      RecsOfConcat(recs, [Opened(p)], k);
      RecsOfSingle(Opened(p), k);
      PacketsOfSnoc(ps, p, k);
      assert RecsOf(recs, k) == Summaries(Segments(PacketsOf(ps, k)));
      if p.key == k {
        PacketsOfKey(ps, k);
        SummariesLast(PacketsOf(ps, k));
        if RecsOf(recs, k) != [] {
          LastRecIsSome(recs, k);
        }
        SegmentsOpen(PacketsOf(ps, k), p);
      } else {
        assert PacketsOf(ps + [p], k) == PacketsOf(ps, k);
      }
    }
  }

  lemma AcceptUpdating(recs: seq<Rec>, i: nat, ps: seq<Packet>, p: Packet)
    requires Sessionized(recs, ps)
    requires i < |recs| && recs[i].key == p.key
    requires forall j :: i < j < |recs| ==> recs[j].key != p.key
    requires p.ts - recs[i].last <= EXPIRATION_FLOW_TIME
    ensures Sessionized(RemoveAt(recs, i) + [Bumped(recs[i], p)], ps + [p])
  {
    var recs' := RemoveAt(recs, i) + [Bumped(recs[i], p)];
    forall k: Key
      ensures RecsOf(recs', k) == Summaries(Segments(PacketsOf(ps + [p], k)))
    {
      RecsOfConcat(RemoveAt(recs, i), [Bumped(recs[i], p)], k);
      RecsOfSingle(Bumped(recs[i], p), k);
      PacketsOfSnoc(ps, p, k);
      assert RecsOf(recs, k) == Summaries(Segments(PacketsOf(ps, k)));
      if p.key == k {
        PacketsOfKey(ps, k);
        RecsOfNewest(recs, i, k);
        SummariesLast(PacketsOf(ps, k));
        SegmentsExtend(PacketsOf(ps, k), p);
        assert Front(RecsOf(recs[..i], k) + [recs[i]]) == RecsOf(recs[..i], k);
      } else {
        assert PacketsOf(ps + [p], k) == PacketsOf(ps, k);
        RecsOfOther(recs, i, k);
      }
    }
  }

  // ---------------------------------------------------------------- conservation

  function TotalPackets(recs: seq<Rec>): nat {
    if recs == [] then 0 else TotalPackets(Front(recs)) + Last(recs).npack
  }

  function TotalBytes(recs: seq<Rec>): nat {
    if recs == [] then 0 else TotalBytes(Front(recs)) + Last(recs).nbytes
  }

  /** The counters add up to the packets and bytes accepted, modulo the widths of the two fields. */
  ghost predicate Conserved(recs: seq<Rec>, ps: seq<Packet>) {
    && (TotalPackets(recs) - |ps|) % U32 == 0
    && (TotalBytes(recs) - Bytes(ps)) % U64 == 0
  }

  lemma {:induction false} TotalsConcat(a: seq<Rec>, b: seq<Rec>)
    ensures TotalPackets(a + b) == TotalPackets(a) + TotalPackets(b)
    ensures TotalBytes(a + b) == TotalBytes(a) + TotalBytes(b)
  {
    if b == [] {
      assert a + b == a;
    } else {
      assert Front(a + b) == a + Front(b);
      TotalsConcat(a, Front(b));
    }
  }

  lemma TotalsSingle(r: Rec)
    ensures TotalPackets([r]) == r.npack && TotalBytes([r]) == r.nbytes
  {
    assert Front([r]) == [];
  }

  lemma TotalsRemove(recs: seq<Rec>, i: nat)
    requires i < |recs|
    ensures TotalPackets(recs) == TotalPackets(RemoveAt(recs, i)) + recs[i].npack
    ensures TotalBytes(recs) == TotalBytes(RemoveAt(recs, i)) + recs[i].nbytes
  {
    var a, r, b := recs[..i], recs[i], recs[i + 1..];
    assert recs == a + ([r] + b);
    TotalsConcat(a, [r] + b);
    TotalsConcat([r], b);
    TotalsConcat(a, b);
    TotalsSingle(r);
  }

  /** Adding `b` to a counter of width `m` keeps a difference that is a multiple of `m`. */
  lemma WrapKeepsMultiple(x: int, a: nat, b: nat, m: nat)
    requires m > 0 && x % m == 0
    ensures (x - a - b + (a + b) % m) % m == 0
  {
    var q := x / m;
    assert a + b == m * ((a + b) / m) + (a + b) % m;
    assert x == m * q;
    assert x - a - b + (a + b) % m == m * q - m * ((a + b) / m) == m * (q - (a + b) / m);
    MultipleOf(q - (a + b) / m, m);
  }

  lemma MultipleOf(q: int, m: int)
    requires m > 0
    ensures (m * q) % m == 0
  {
    var r, d := (m * q) % m, (m * q) / m;
    assert m * q == m * d + r;
    assert m * (q - d) == r;
    MulBound(m, q - d);
  }

  lemma ConserveOpening(recs: seq<Rec>, ps: seq<Packet>, p: Packet)
    requires Conserved(recs, ps)
    ensures Conserved(recs + [Opened(p)], ps + [p])
  {
    TotalsConcat(recs, [Opened(p)]);
    TotalsSingle(Opened(p));
    assert Front(ps + [p]) == ps;
  }

  lemma ConserveUpdating(recs: seq<Rec>, i: nat, ps: seq<Packet>, p: Packet)
    requires Conserved(recs, ps) && i < |recs|
    ensures Conserved(RemoveAt(recs, i) + [Bumped(recs[i], p)], ps + [p])
  {
    TotalsRemove(recs, i);
    TotalsConcat(RemoveAt(recs, i), [Bumped(recs[i], p)]);
    TotalsSingle(Bumped(recs[i], p));
    assert Front(ps + [p]) == ps;
    WrapKeepsMultiple(TotalPackets(recs) - |ps|, recs[i].npack, 1, U32);
    WrapKeepsMultiple(TotalBytes(recs) - Bytes(ps), recs[i].nbytes, p.len, U64);
  }
}
