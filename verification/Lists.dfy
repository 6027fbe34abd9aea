/** Facts about sequences without repetition, used for every linked list of the program. */
module Lists {

  datatype Option<T> = None | Some(value: T)

  ghost predicate NoDup<T>(s: seq<T>) {
    forall i, j :: 0 <= i < j < |s| ==> s[i] != s[j]
  }

  /** The position of the first occurrence of `x`, or `|s|` when there is none. */
  function IndexOf<T(==)>(s: seq<T>, x: T): (i: nat)
    ensures i <= |s|
    ensures i < |s| ==> s[i] == x
    ensures i < |s| <==> x in s
    ensures forall j :: 0 <= j < i ==> s[j] != x
  {
    if s == [] then 0
    else if s[0] == x then 0
    else 1 + IndexOf(s[1..], x)
  }

  function RemoveAt<T>(s: seq<T>, i: nat): (r: seq<T>)
    requires i < |s|
    ensures |r| == |s| - 1
    ensures forall j :: 0 <= j < |r| ==> r[j] == s[if j < i then j else j + 1]
  {
    s[..i] + s[i + 1..]
  }

  /** What `list_unlink` does to the abstract list: drop the (only) occurrence of `x`. */
  function Unlink<T(==)>(s: seq<T>, x: T): seq<T> {
    var i := IndexOf(s, x);
    if i < |s| then RemoveAt(s, i) else s
  }

  function Reverse<T>(s: seq<T>): (r: seq<T>)
    ensures |r| == |s|
    ensures forall i :: 0 <= i < |s| ==> r[i] == s[|s| - 1 - i]
  {
    if s == [] then [] else Reverse(s[1..]) + [s[0]]
  }

  /** List `s` holds exactly the indices that `place` says are at `here`, each once. */
  ghost predicate Tagged<P>(s: seq<nat>, place: seq<P>, here: P) {
    && NoDup(s)
    && (forall i :: 0 <= i < |s| ==> s[i] < |place| && place[s[i]] == here)
    && (forall x :: 0 <= x < |place| && place[x] == here ==> x in s)
  }

  lemma TaggedAway<P>(s: seq<nat>, x: nat, place: seq<P>, here: P, there: P)
    requires Tagged(s, place, here) && x in s && here != there
    ensures Tagged(Unlink(s, x), place[x := there], here)
  {
    var r := Unlink(s, x);
    var k := IndexOf(s, x);
    forall y | 0 <= y < |place| && place[x := there][y] == here
      ensures y in r
    {
      var i :| 0 <= i < |s| && s[i] == y;
      assert r[if i < k then i else i - 1] == y;
    }
  }

  lemma TaggedInto<P>(s: seq<nat>, s': seq<nat>, x: nat, place: seq<P>, there: P)
    requires Tagged(s, place, there) && x < |place| && place[x] != there
    requires s' == [x] + s || s' == s + [x]
    ensures Tagged(s', place[x := there], there)
  {
    forall y | 0 <= y < |place| && place[x := there][y] == there
      ensures y in s'
    {
      if y != x {
        assert y in s;
      }
    }
  }

  lemma TaggedOther<P>(s: seq<nat>, x: nat, place: seq<P>, there: P, other: P)
    requires Tagged(s, place, other) && x < |place|
    requires place[x] != other && there != other
    ensures Tagged(s, place[x := there], other)
  {
  }

  lemma UnlinkHead<T>(s: seq<T>)
    requires s != []
    ensures Unlink(s, s[0]) == s[1..]
  {
  }

  lemma UnlinkLast<T>(s: seq<T>)
    requires s != [] && NoDup(s)
    ensures Unlink(s, s[|s| - 1]) == s[..|s| - 1]
  {
    assert IndexOf(s, s[|s| - 1]) == |s| - 1;
  }

  lemma Assoc<T>(a: seq<T>, b: seq<T>, c: seq<T>)
    ensures a + b + c == a + (b + c)
  {
  }

  lemma ReverseCons<T>(x: T, s: seq<T>)
    ensures Reverse([x] + s) == Reverse(s) + [x]
  {
    assert ([x] + s)[1..] == s;
  }

  lemma ReverseSnoc<T>(s: seq<T>, x: T)
    ensures Reverse(s + [x]) == [x] + Reverse(s)
  {
    var a, b := Reverse(s + [x]), [x] + Reverse(s);
    assert |a| == |b|;
    assert forall i :: 0 <= i < |a| ==> a[i] == b[i];
  }

  lemma TouchedAt<T>(s: seq<T>, k: nat)
    requires k < |s|
    ensures var r := [s[k]] + RemoveAt(s, k);
      && |r| == |s|
      && forall i {:trigger r[i]} :: 0 <= i < |s| ==> r[i] == s[if i == 0 then k else if i <= k then i - 1 else i]
  {
  }

  lemma NoDupTouched<T>(s: seq<T>, k: nat)
    requires NoDup(s) && k < |s|
    ensures NoDup([s[k]] + RemoveAt(s, k))
  {
    TouchedAt(s, k);
  }

  lemma TaggedTouch<P>(s: seq<nat>, x: nat, place: seq<P>, here: P)
    requires Tagged(s, place, here) && x in s
    ensures Tagged([x] + Unlink(s, x), place, here)
  {
    var k := IndexOf(s, x);
    var r := [s[k]] + RemoveAt(s, k);
    NoDupTouched(s, k);
    TouchedAt(s, k);
    forall y | 0 <= y < |place| && place[y] == here
      ensures y in r
    {
      var i :| 0 <= i < |s| && s[i] == y;
      assert r[if i == k then 0 else if i < k then i + 1 else i] == y;
    }
  }

  lemma {:induction false} ReverseConcat<T>(a: seq<T>, b: seq<T>)
    ensures Reverse(a + b) == Reverse(b) + Reverse(a)
  {
    if a == [] {
      assert a + b == b;
    } else {
      assert (a + b)[1..] == a[1..] + b;
      ReverseConcat(a[1..], b);
    }
  }

  lemma RemoveMiddle<T>(a: seq<T>, x: T, b: seq<T>)
    ensures RemoveAt(a + [x] + b, |a|) == a + b
  {
    assert (a + [x] + b)[..|a|] == a && (a + [x] + b)[|a| + 1..] == b;
  }

  lemma ReverseMiddle<T>(a: seq<T>, x: T, b: seq<T>)
    ensures Reverse(a + [x] + b) == Reverse(b) + [x] + Reverse(a)
    ensures Reverse([x] + (a + b)) == Reverse(b) + Reverse(a) + [x]
  {
    ReverseConcat(a + [x], b);
    ReverseSnoc(a, x);
    ReverseCons(x, a + b);
    ReverseConcat(a, b);
  }

  lemma TouchMiddle<T>(a: seq<T>, x: T, b: seq<T>, s: seq<T>)
    requires s == a + [x] + b
    ensures Reverse([x] + RemoveAt(s, |a|)) == RemoveAt(Reverse(s), |b|) + [x]
  {
    RemoveMiddle(a, x, b);
    ReverseMiddle(a, x, b);
    RemoveMiddle(Reverse(b), x, Reverse(a));
  }

  /** Moving an element to the front of a list moves it to the end of the reversed list. */
  lemma ReverseTouch<T>(s: seq<T>, m: nat)
    requires m < |s|
    ensures Reverse([s[m]] + RemoveAt(s, m)) == RemoveAt(Reverse(s), |s| - 1 - m) + [s[m]]
  {
    SplitAt(s, m);
    TouchMiddle(s[..m], s[m], s[m + 1..], s);
    assert |s[..m]| == m && |s[m + 1..]| == |s| - 1 - m;
  }

  lemma SplitAt<T>(s: seq<T>, m: nat)
    requires m < |s|
    ensures s == s[..m] + [s[m]] + s[m + 1..]
  {
  }
}
