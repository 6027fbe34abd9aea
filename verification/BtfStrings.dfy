/** The string section of BTF: strings one after the other, each ended by NUL, addressed by offset. */
module BtfStrings {
  import opened Lists

  const NUL: char := '\0'

  predicate NoNul(s: string) {
    forall i :: 0 <= i < |s| ==> s[i] != NUL
  }

  ghost predicate NoNuls(ss: seq<string>) {
    forall i :: 0 <= i < |ss| ==> NoNul(ss[i])
  }

  /** The string that starts at `off`. */
  function StrAt(d: string, off: nat): (s: string)
    ensures NoNul(s)
    ensures off <= |d| ==> off + |s| <= |d|
    decreases |d| - off
  {
    if off >= |d| || d[off] == NUL then [] else [d[off]] + StrAt(d, off + 1)
  }

  /** The section that holds the strings `ss`. */
  function Blob(ss: seq<string>): string {
    if ss == [] then [] else ss[0] + [NUL] + Blob(ss[1..])
  }

  /** Where the `k`-th of them starts. */
  function OffOf(ss: seq<string>, k: nat): nat
    requires k <= |ss|
  {
    if k == 0 then 0 else |ss[0]| + 1 + OffOf(ss[1..], k - 1)
  }

  // ---------------------------------------------------------------- reading a section

  lemma StrAtPrefix(s: string, rest: string)
    requires NoNul(s)
    ensures StrAt(s + [NUL] + rest, 0) == s
  {
    StrAtShift(s, [NUL] + rest, 0);
    assert s + [NUL] + rest == s + ([NUL] + rest);
  }

  lemma StrAtShift(s: string, rest: string, i: nat)
    requires NoNul(s) && i <= |s| && rest != [] && rest[0] == NUL
    ensures StrAt(s + rest, i) == s[i..]
    decreases |s| - i
  {
    if i < |s| {
      StrAtShift(s, rest, i + 1);
      assert s[i..] == [s[i]] + s[i + 1..];
    }
  }

  lemma {:induction false} StrAtDrop(a: string, d: string, off: nat)
    ensures StrAt(a + d, |a| + off) == StrAt(d, off)
    decreases |d| - off
  {
    if off < |d| && d[off] != NUL {
      StrAtDrop(a, d, off + 1);
    }
  }

  /** Each string is found at its offset. */
  lemma {:induction false} BlobAt(ss: seq<string>, k: nat)
    requires NoNuls(ss) && k < |ss|
    ensures StrAt(Blob(ss), OffOf(ss, k)) == ss[k]
  {
    if k == 0 {
      StrAtPrefix(ss[0], Blob(ss[1..]));
    } else {
      BlobAt(ss[1..], k - 1);
      StrAtDrop(ss[0] + [NUL], Blob(ss[1..]), OffOf(ss[1..], k - 1));
    }
  }

  lemma {:induction false} BlobSnoc(ss: seq<string>, s: string)
    ensures Blob(ss + [s]) == Blob(ss) + s + [NUL]
    ensures OffOf(ss + [s], |ss|) == |Blob(ss)|
  {
    if ss == [] {
      assert Blob([s][1..]) == [];
    } else {
      assert (ss + [s])[1..] == ss[1..] + [s];
      BlobSnoc(ss[1..], s);
    }
  }

  lemma {:induction false} OffOfPrefix(ss: seq<string>, s: string, k: nat)
    requires k <= |ss|
    ensures OffOf(ss + [s], k) == OffOf(ss, k)
  {
    if k > 0 {
      assert (ss + [s])[1..] == ss[1..] + [s];
      OffOfPrefix(ss[1..], s, k - 1);
    }
  }

  lemma {:induction false} OffOfNext(ss: seq<string>, k: nat)
    requires k < |ss|
    ensures OffOf(ss, k + 1) == OffOf(ss, k) + |ss[k]| + 1
  {
    if k > 0 {
      OffOfNext(ss[1..], k - 1);
    }
  }

  lemma {:induction false} OffOfEnd(ss: seq<string>)
    ensures OffOf(ss, |ss|) == |Blob(ss)|
  {
    if ss != [] {
      OffOfEnd(ss[1..]);
    }
  }

  lemma {:induction false} OffOfGrows(ss: seq<string>, i: nat, j: nat)
    requires i < j <= |ss|
    ensures OffOf(ss, i) < OffOf(ss, j)
    decreases j - i
  {
    OffOfNext(ss, j - 1);
    if i < j - 1 {
      OffOfGrows(ss, i, j - 1);
    }
  }

  /** `btf_parse_str_sec` accepts sections that start and end with NUL: they are such strings, the
      first of them empty. */
  function Split(d: string): seq<string>
    decreases |d|
  {
    if d == [] then []
    else
      var s := StrAt(d, 0);
      [s] + if |s| < |d| then Split(d[|s| + 1..]) else []
  }

  lemma BlobCons(s: string, ss: seq<string>)
    requires NoNul(s) && NoNuls(ss)
    ensures Blob([s] + ss) == s + [NUL] + Blob(ss) && NoNuls([s] + ss)
  {
    assert ([s] + ss)[1..] == ss;
  }

  lemma SplitFirst(d: string)
    requires d != [] && d[|d| - 1] == NUL
    ensures var s := StrAt(d, 0);
      && |s| < |d| && d == s + [NUL] + d[|s| + 1..] && Split(d) == [s] + Split(d[|s| + 1..])
      && (d[|s| + 1..] != [] ==> d[|s| + 1..][|d[|s| + 1..]| - 1] == NUL)
  {
    StrAtEnds(d, 0);
  }

  lemma {:induction false} SplitIs(d: string)
    requires d != [] ==> d[|d| - 1] == NUL
    ensures Blob(Split(d)) == d && NoNuls(Split(d))
    ensures d != [] && d[0] == NUL ==> Split(d) != [] && Split(d)[0] == []
    decreases |d|
  {
    if d != [] {
      var s := StrAt(d, 0);
      SplitFirst(d);
      SplitIs(d[|s| + 1..]);
      BlobCons(s, Split(d[|s| + 1..]));
    }
  }

  lemma {:induction false} StrAtEnds(d: string, off: nat)
    requires off < |d| && d[|d| - 1] == NUL
    ensures off + |StrAt(d, off)| < |d| && d[off + |StrAt(d, off)|] == NUL
    ensures d[off..off + |StrAt(d, off)|] == StrAt(d, off)
    decreases |d| - off
  {
    if d[off] != NUL {
      StrAtEnds(d, off + 1);
      var n := |StrAt(d, off + 1)|;
      assert d[off..off + 1 + n] == [d[off]] + d[off + 1..off + 1 + n];
    }
  }

  // ---------------------------------------------------------------- strcmp

  /** `strcmp(a, b) <= 0`. */
  predicate StrLe(a: string, b: string) {
    if a == [] then true
    else if b == [] then false
    else if a[0] != b[0] then a[0] < b[0]
    else StrLe(a[1..], b[1..])
  }

  lemma {:induction false} StrLeTotal(a: string, b: string)
    ensures StrLe(a, b) || StrLe(b, a)
    ensures StrLe(a, b) && StrLe(b, a) ==> a == b
    ensures StrLe(a, a)
  {
    if a != [] {
      StrLeTotal(a[1..], if b == [] then [] else b[1..]);
      if b != [] && a[0] == b[0] {
        assert a == [a[0]] + a[1..] && b == [b[0]] + b[1..];
      }
    }
  }

  lemma {:induction false} StrLeTrans(a: string, b: string, c: string)
    requires StrLe(a, b) && StrLe(b, c)
    ensures StrLe(a, c)
  {
    if a != [] && a[0] == b[0] && b[0] == c[0] {
      StrLeTrans(a[1..], b[1..], c[1..]);
    }
  }
}
