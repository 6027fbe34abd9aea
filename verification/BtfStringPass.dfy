/** `btf_dedup_strings`: index the strings, mark the referenced ones, sort, emit one copy of each
    group of equal strings that is referenced, and rewrite every reference. */
module BtfStringPass {
  import opened BtfTypes
  import opened BtfStrings
  import opened Lists

  /** `struct btf_str_ptr`; `off` is where the string starts in the old section. */
  datatype StrPtr = StrPtr(off: nat, newOff: nat, used: bool)

  function Content(d: string, p: StrPtr): string {
    StrAt(d, p.off)
  }

  function Contents(d: string, ps: seq<StrPtr>): (r: seq<string>)
    ensures |r| == |ps| && forall i :: 0 <= i < |ps| ==> r[i] == Content(d, ps[i])
  {
    seq(|ps|, i requires 0 <= i < |ps| => Content(d, ps[i]))
  }

  ghost predicate IsStart(d: string, off: nat) {
    exists i :: 0 <= i < |Split(d)| && OffOf(Split(d), i) == off
  }

  // ---------------------------------------------------------------- sorting

  ghost predicate Sorted(ps: seq<StrPtr>, le: (StrPtr, StrPtr) -> bool) {
    forall i, j :: 0 <= i < j < |ps| ==> le(ps[i], ps[j])
  }

  lemma InsertSorted(r: seq<StrPtr>, le: (StrPtr, StrPtr) -> bool, k: nat, x: StrPtr)
    requires forall a, b :: le(a, b) || le(b, a)
    requires forall a, b, c :: le(a, b) && le(b, c) ==> le(a, c)
    requires Sorted(r, le) && k <= |r|
    requires forall j :: 0 <= j < k ==> le(r[j], x)
    requires k < |r| ==> !le(r[k], x)
    ensures Sorted(r[..k] + [x] + r[k..], le)
    ensures multiset(r[..k] + [x] + r[k..]) == multiset(r) + multiset{x}
  {
    assert r == r[..k] + r[k..];
    var t := r[..k] + [x] + r[k..];
    forall i, j | 0 <= i < j < |t|
      ensures le(t[i], t[j])
    {
      if j > k {
        assert t[j] == r[j - 1];
        assert le(x, r[k]);
        assert k < j - 1 ==> le(r[k], r[j - 1]);
      }
    }
  }

  /** `qsort`: a sorted permutation; how libc sorts is not part of this model. */
  method Sort(ps: seq<StrPtr>, le: (StrPtr, StrPtr) -> bool) returns (r: seq<StrPtr>)
    requires forall a, b :: le(a, b) || le(b, a)
    requires forall a, b, c :: le(a, b) && le(b, c) ==> le(a, c)
    ensures Sorted(r, le) && multiset(r) == multiset(ps)
  {
    r := [];
    var i := 0;
    while i < |ps|
      invariant 0 <= i <= |ps| && Sorted(r, le) && multiset(r) == multiset(ps[..i])
    {
      r := Insert(r, le, ps[i]);
      assert ps[..i + 1] == ps[..i] + [ps[i]];
      i := i + 1;
    }
    assert ps[..i] == ps;
  }

  method Insert(r: seq<StrPtr>, le: (StrPtr, StrPtr) -> bool, x: StrPtr) returns (t: seq<StrPtr>)
    requires forall a, b :: le(a, b) || le(b, a)
    requires forall a, b, c :: le(a, b) && le(b, c) ==> le(a, c)
    requires Sorted(r, le)
    ensures Sorted(t, le) && multiset(t) == multiset(r) + multiset{x}
  {
    var k := 0;
    while k < |r| && le(r[k], x)
      invariant 0 <= k <= |r| && forall j :: 0 <= j < k ==> le(r[j], x)
    {
      k := k + 1;
    }
    InsertSorted(r, le, k, x);
    t := r[..k] + [x] + r[k..];
  }

  predicate LeContent(d: string, a: StrPtr, b: StrPtr) {
    StrLe(Content(d, a), Content(d, b))
  }

  lemma LeContentOrders(d: string)
    ensures forall a, b :: LeContent(d, a, b) || LeContent(d, b, a)
    ensures forall a, b, c :: LeContent(d, a, b) && LeContent(d, b, c) ==> LeContent(d, a, c)
  {
    forall a, b
      ensures LeContent(d, a, b) || LeContent(d, b, a)
    {
      StrLeTotal(Content(d, a), Content(d, b));
    }
    forall a, b, c | LeContent(d, a, b) && LeContent(d, b, c)
      ensures LeContent(d, a, c)
    {
      StrLeTrans(Content(d, a), Content(d, b), Content(d, c));
    }
  }

  // ---------------------------------------------------------------- emitting

  /** Entry `i` has a copy of its string among the first `n` whose string is referenced. */
  ghost predicate Referenced(cs: seq<string>, ps: seq<StrPtr>, i: int) {
    0 <= i < |cs| == |ps| && exists k :: 0 <= k < |ps| && ps[k].used && cs[k] == cs[i]
  }

  /** Same strings and marks, new offsets aside. */
  ghost predicate SameEntries(ps: seq<StrPtr>, qs: seq<StrPtr>) {
    && |ps| == |qs|
    && forall i :: 0 <= i < |ps| ==> qs[i].off == ps[i].off && qs[i].used == ps[i].used
  }

  ghost predicate SortedStrings(cs: seq<string>) {
    forall i, j :: 0 <= i < j < |cs| ==> StrLe(cs[i], cs[j])
  }

  /** The total size of the strings, with their NULs. */
  function Size(cs: seq<string>): nat {
    if cs == [] then 0 else Size(cs[..|cs| - 1]) + |cs[|cs| - 1]| + 1
  }

  /** The first `n` entries are dealt with: `ss` holds their referenced strings, each once, and they
      know where. */
  ghost predicate Emitted(cs: seq<string>, ps: seq<StrPtr>, n: nat, ss: seq<string>) {
    && n <= |ps| == |cs| && NoNuls(ss) && NoDup(ss)
    && (forall i :: 0 <= i < n && Referenced(cs, ps, i) ==> EmittedAt(cs[i], ps[i].newOff, ss))
    && (forall j {:trigger ss[j]} :: 0 <= j < |ss| ==> HasReference(cs, ps, n, ss[j]))
    && |Blob(ss)| <= Size(cs[..n])
  }

  /** One of the first `n` entries is referenced and holds string `s`. */
  ghost predicate HasReference(cs: seq<string>, ps: seq<StrPtr>, n: nat, s: string) {
    exists i :: 0 <= i < n && n <= |ps| && n <= |cs| && ps[i].used && cs[i] == s
  }

  ghost predicate EmittedAt(s: string, off: nat, ss: seq<string>) {
    exists j :: 0 <= j < |ss| && ss[j] == s && OffOf(ss, j) == off
  }

  lemma EmittedAtMore(s: string, off: nat, ss: seq<string>, t: string)
    requires EmittedAt(s, off, ss)
    ensures EmittedAt(s, off, ss + [t])
  {
    var j :| 0 <= j < |ss| && ss[j] == s && OffOf(ss, j) == off;
    OffOfPrefix(ss, t, j);
    assert (ss + [t])[j] == s;
  }

  lemma EmittedAtLast(s: string, ss: seq<string>)
    ensures EmittedAt(s, |Blob(ss)|, ss + [s])
  {
    BlobSnoc(ss, s);
    assert (ss + [s])[|ss|] == s;
  }

  /** A group of equal strings: all entries from `a` up to `b`, and no others. */
  ghost predicate Group(cs: seq<string>, a: nat, b: nat) {
    && a < b <= |cs|
    && (forall i :: a <= i < b ==> cs[i] == cs[a])
    && (forall i :: 0 <= i < a || b <= i < |cs| ==> cs[i] != cs[a])
  }

  lemma SizeGrows(cs: seq<string>, a: nat, b: nat)
    requires a < b <= |cs|
    ensures Size(cs[..a]) + |cs[a]| + 1 <= Size(cs[..b])
    decreases b
  {
    assert cs[..b][..b - 1] == cs[..b - 1];
    if a < b - 1 {
      SizeGrows(cs, a, b - 1);
    }
  }

  /** In a sorted list, equal strings that meet a different one on both sides form a group. */
  lemma SortedGroup(cs: seq<string>, a: nat, b: nat)
    requires SortedStrings(cs) && a < b <= |cs|
    requires forall i :: a <= i < b ==> cs[i] == cs[a]
    requires a > 0 ==> cs[a - 1] != cs[a]
    requires b < |cs| ==> cs[b] != cs[a]
    ensures Group(cs, a, b)
  {
    forall i | 0 <= i < a
      ensures cs[i] != cs[a]
    {
      StrLeTotal(cs[a - 1], cs[a]);
      StrLeTotal(cs[i], cs[a - 1]);
    }
    forall i | b <= i < |cs|
      ensures cs[i] != cs[a]
    {
      StrLeTotal(cs[b], cs[a]);
      StrLeTotal(cs[b], cs[i]);
    }
  }

  /** The effect of one turn of the emitting loop on the entries. */
  function Placed(ps: seq<StrPtr>, a: nat, b: nat, off: nat): (qs: seq<StrPtr>)
    requires a <= b <= |ps|
    ensures SameEntries(ps, qs)
    ensures forall i :: 0 <= i < |ps| ==> qs[i].newOff == if a <= i < b then off else ps[i].newOff
  {
    seq(|ps|, i requires 0 <= i < |ps| => if a <= i < b then ps[i].(newOff := off) else ps[i])
  }

  lemma ReferencedSame(cs: seq<string>, ps: seq<StrPtr>, qs: seq<StrPtr>, i: int)
    requires SameEntries(ps, qs)
    ensures Referenced(cs, ps, i) <==> Referenced(cs, qs, i)
  {
    if Referenced(cs, ps, i) {
      var k :| 0 <= k < |ps| && ps[k].used && cs[k] == cs[i];
      assert qs[k].used;
    }
    if Referenced(cs, qs, i) {
      var k :| 0 <= k < |qs| && qs[k].used && cs[k] == cs[i];
      assert ps[k].used;
    }
  }

  lemma EmitGroup(cs: seq<string>, ps: seq<StrPtr>, a: nat, b: nat, ss: seq<string>)
    requires Emitted(cs, ps, a, ss) && Group(cs, a, b) && NoNul(cs[a]) && Referenced(cs, ps, a)
    ensures Emitted(cs, Placed(ps, a, b, |Blob(ss)|), b, ss + [cs[a]])
  {
    var qs, tt := Placed(ps, a, b, |Blob(ss)|), ss + [cs[a]];
    BlobSnoc(ss, cs[a]);
    SizeGrows(cs, a, b);
    EmittedAtLast(cs[a], ss);
    forall i | 0 <= i < b && Referenced(cs, qs, i)
      ensures EmittedAt(cs[i], qs[i].newOff, tt)
    {
      ReferencedSame(cs, ps, qs, i);
      if i < a {
        EmittedAtMore(cs[i], ps[i].newOff, ss, cs[a]);
      }
    }
    forall j | 0 <= j < |tt|
      ensures HasReference(cs, qs, b, tt[j])
    {
      if j < |ss| {
        assert HasReference(cs, ps, a, ss[j]);
        var i :| 0 <= i < a && ps[i].used && cs[i] == ss[j];
        assert qs[i].used && cs[i] == tt[j];
      } else {
        var k :| 0 <= k < |ps| && ps[k].used && cs[k] == cs[a];
        assert qs[k].used && cs[k] == tt[j];
      }
    }
    assert NoDup(tt) by {
      forall j | 0 <= j < |ss|
        ensures ss[j] != cs[a]
      {
        assert HasReference(cs, ps, a, ss[j]);
      }
    }
  }

  lemma GroupReferenced(cs: seq<string>, ps: seq<StrPtr>, a: nat, b: nat, i: nat)
    requires Group(cs, a, b) && |cs| == |ps|
    ensures a <= i < b ==> (Referenced(cs, ps, i) <==> Referenced(cs, ps, a))
  {
  }

  lemma SkipGroup(cs: seq<string>, ps: seq<StrPtr>, a: nat, b: nat, ss: seq<string>)
    requires Emitted(cs, ps, a, ss) && Group(cs, a, b) && !Referenced(cs, ps, a)
    ensures Emitted(cs, ps, b, ss)
  {
    SizeGrows(cs, a, b);
    forall i | 0 <= i < b && Referenced(cs, ps, i)
      ensures EmittedAt(cs[i], ps[i].newOff, ss)
    {
      GroupReferenced(cs, ps, a, b, i);
    }
    forall j | 0 <= j < |ss|
      ensures HasReference(cs, ps, b, ss[j])
    {
      assert HasReference(cs, ps, a, ss[j]);
      var i :| 0 <= i < a && ps[i].used && cs[i] == ss[j];
      assert ps[i].used && cs[i] == ss[j];
    }
  }

  /** Where the loop stands before turn `i`: the current group starts at `grp`. */
  ghost predicate Grouping(cs: seq<string>, ps: seq<StrPtr>, grp: nat, grpUsed: bool, i: nat) {
    && grp < i <= |ps| == |cs| && (grp > 0 ==> cs[grp - 1] != cs[grp])
    && (forall j :: grp <= j < i ==> cs[j] == cs[grp])
    && (grpUsed <==> exists j :: grp <= j < i && ps[j].used)
  }

  /** The end of a group: emit its string if any entry is referenced. */
  method Flush(d: string, ps: seq<StrPtr>, grp: nat, grpUsed: bool, i: nat, tmp: string, ghost ss: seq<string>)
    returns (qs: seq<StrPtr>, tmp': string, ghost ss': seq<string>)
    requires Grouping(Contents(d, ps), ps, grp, grpUsed, i) && Group(Contents(d, ps), grp, i)
    requires Emitted(Contents(d, ps), ps, grp, ss) && tmp == Blob(ss)
    ensures SameEntries(ps, qs) && tmp' == Blob(ss')
    ensures Emitted(Contents(d, ps), qs, i, ss')
    ensures ss' == if grpUsed then ss + [Content(d, ps[grp])] else ss
    ensures Referenced(Contents(d, ps), ps, grp) <==> grpUsed
  {
    ghost var cs := Contents(d, ps);
    if grpUsed {
      assert Referenced(cs, ps, grp);
      EmitGroup(cs, ps, grp, i, ss);
      BlobSnoc(ss, cs[grp]);
      qs := Placed(ps, grp, i, |tmp|);
      tmp' := tmp + Content(d, ps[grp]) + [NUL];
      ss' := ss + [cs[grp]];
    } else {
      assert !Referenced(cs, ps, grp);
      SkipGroup(cs, ps, grp, i, ss);
      qs, tmp', ss' := ps, tmp, ss;
    }
  }

  /** What the emitting loop keeps, `ps` being the sorted entries it started from. */
  ghost predicate Emitting(d: string, ps: seq<StrPtr>, qs: seq<StrPtr>, tmp: string, ss: seq<string>,
                           grp: nat, grpUsed: bool, i: nat) {
    var cs := Contents(d, qs);
    && SameEntries(ps, qs) && cs == Contents(d, ps) && tmp == Blob(ss)
    && Grouping(cs, qs, grp, grpUsed, i) && Emitted(cs, qs, grp, ss)
    && (Referenced(cs, qs, 0) && grp > 0 ==> ss != [] && ss[0] == cs[0])
  }

  lemma SameContents(d: string, ps: seq<StrPtr>, qs: seq<StrPtr>)
    requires SameEntries(ps, qs)
    ensures Contents(d, qs) == Contents(d, ps)
  {
  }

  lemma GroupingJoins(cs: seq<string>, ps: seq<StrPtr>, grp: nat, grpUsed: bool, i: nat)
    requires Grouping(cs, ps, grp, grpUsed, i) && i < |ps| && cs[i] == cs[grp]
    ensures Grouping(cs, ps, grp, grpUsed || ps[i].used, i + 1)
  {
  }

  lemma GroupingOpens(cs: seq<string>, ps: seq<StrPtr>, grp: nat, grpUsed: bool, i: nat)
    requires Grouping(cs, ps, grp, grpUsed, i) && i < |ps| && cs[i] != cs[grp]
    ensures Grouping(cs, ps, i, ps[i].used, i + 1)
  {
  }

  lemma GroupingSame(cs: seq<string>, ps: seq<StrPtr>, qs: seq<StrPtr>, grp: nat, grpUsed: bool, i: nat)
    requires Grouping(cs, ps, grp, grpUsed, i) && SameEntries(ps, qs)
    ensures Grouping(cs, qs, grp, grpUsed, i)
  {
  }

  lemma TurnOpens(d: string, ps: seq<StrPtr>, qs: seq<StrPtr>, tmp: string, ss: seq<string>, grp: nat, grpUsed: bool,
                  i: nat,
                  qs': seq<StrPtr>, tmp': string, ss': seq<string>)
    requires Emitting(d, ps, qs, tmp, ss, grp, grpUsed, i) && i < |ps| && Content(d, qs[i]) != Content(d, qs[grp])
    requires SameEntries(qs, qs') && tmp' == Blob(ss') && Emitted(Contents(d, qs), qs', i, ss')
    requires ss' == if grpUsed then ss + [Content(d, qs[grp])] else ss
    requires Referenced(Contents(d, qs), qs, grp) <==> grpUsed
    ensures Emitting(d, ps, qs', tmp', ss', i, qs'[i].used, i + 1)
  {
    SameContents(d, qs, qs');
    ReferencedSame(Contents(d, qs), qs, qs', 0);
    GroupingOpens(Contents(d, qs), qs, grp, grpUsed, i);
    GroupingSame(Contents(d, qs), qs, qs', i, qs[i].used, i + 1);
  }

  /** One turn: the next entry joins the group, or closes it and opens its own. */
  method EmitTurn(d: string, ghost ps: seq<StrPtr>, qs: seq<StrPtr>, tmp: string, ghost ss: seq<string>,
                  grp: nat, grpUsed: bool, i: nat)
    returns (qs': seq<StrPtr>, tmp': string, ghost ss': seq<string>, grp': nat, grpUsed': bool)
    requires Emitting(d, ps, qs, tmp, ss, grp, grpUsed, i) && i < |ps| && SortedStrings(Contents(d, ps))
    ensures Emitting(d, ps, qs', tmp', ss', grp', grpUsed', i + 1)
  {
    if Content(d, qs[i]) == Content(d, qs[grp]) {
      GroupingJoins(Contents(d, qs), qs, grp, grpUsed, i);
      qs', tmp', ss', grp', grpUsed' := qs, tmp, ss, grp, grpUsed || qs[i].used;
    } else {
      SortedGroup(Contents(d, qs), grp, i);
      qs', tmp', ss' := Flush(d, qs, grp, grpUsed, i, tmp, ss);
      TurnOpens(d, ps, qs, tmp, ss, grp, grpUsed, i, qs', tmp', ss');
      grp', grpUsed' := i, qs'[i].used;
    }
  }

  lemma EmittingStarts(d: string, ps: seq<StrPtr>)
    requires ps != []
    ensures Emitting(d, ps, ps, [], [], 0, ps[0].used, 1)
  {
  }

  /** The last turn, past the end, closes the last group. */
  method EmitLast(d: string, ghost ps: seq<StrPtr>, qs: seq<StrPtr>, tmp: string, ghost ss: seq<string>,
                  grp: nat, grpUsed: bool)
    returns (qs': seq<StrPtr>, tmp': string, ghost ss': seq<string>)
    requires Emitting(d, ps, qs, tmp, ss, grp, grpUsed, |ps|) && SortedStrings(Contents(d, ps))
    ensures SameEntries(ps, qs') && tmp' == Blob(ss')
    ensures Emitted(Contents(d, ps), qs', |ps|, ss')
    ensures Referenced(Contents(d, ps), ps, 0) ==> ss' != [] && ss'[0] == Content(d, ps[0])
  {
    SortedGroup(Contents(d, qs), grp, |ps|);
    ReferencedSame(Contents(d, ps), ps, qs, 0);
    qs', tmp', ss' := Flush(d, qs, grp, grpUsed, |qs|, tmp, ss);
  }

  /** The emitting loop of `btf_dedup_strings`. */
  method Emit(d: string, ps: seq<StrPtr>) returns (qs: seq<StrPtr>, tmp: string, ghost ss: seq<string>)
    requires ps != [] && SortedStrings(Contents(d, ps))
    ensures SameEntries(ps, qs) && tmp == Blob(ss)
    ensures Emitted(Contents(d, ps), qs, |ps|, ss)
    ensures Referenced(Contents(d, ps), ps, 0) ==> ss != [] && ss[0] == Content(d, ps[0])
  {
    qs, tmp, ss := ps, [], [];
    EmittingStarts(d, ps);
    var grp: nat, grpUsed, i: nat := 0, ps[0].used, 1;
    while i < |ps|
      invariant i <= |ps| && Emitting(d, ps, qs, tmp, ss, grp, grpUsed, i)
    {
      qs, tmp, ss, grp, grpUsed := EmitTurn(d, ps, qs, tmp, ss, grp, grpUsed, i);
      i := i + 1;
    }
    qs, tmp, ss := EmitLast(d, ps, qs, tmp, ss, grp, grpUsed);
  }
}
