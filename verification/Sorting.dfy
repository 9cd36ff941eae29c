/** Python's `list.sort(key=...)` with string keys. */
module Sorting {
  import opened Text

  ghost predicate SortedBy<T>(s: seq<T>, key: T -> string) {
    forall i, j :: 0 <= i < j < |s| ==> AtMost(key(s[i]), key(s[j]))
  }

  /** Where a stable insertion puts a new element of key `k`: after everything not above it. */
  function Place<T>(r: seq<T>, k: string, key: T -> string): (i: nat)
    ensures i <= |r|
    ensures forall j :: i <= j < |r| ==> Before(k, key(r[j]))
    ensures i > 0 ==> !Before(k, key(r[i - 1]))
  {
    if r != [] && Before(k, key(r[|r| - 1])) then Place(r[..|r| - 1], k, key) else |r|
  }

  /** The stable order `list.sort` leaves. */
  function Ordered<T>(s: seq<T>, key: T -> string): seq<T> {
    if s == [] then []
    else
      var n := |s| - 1;
      var r := Ordered(s[..n], key);
      var i := Place(r, key(s[n]), key);
      r[..i] + [s[n]] + r[i..]
  }

  lemma {:induction false} OrderedIsSorted<T>(s: seq<T>, key: T -> string)
    ensures multiset(Ordered(s, key)) == multiset(s) && SortedBy(Ordered(s, key), key)
  {
    hide SortedBy, Before;
    if s == [] {
      NothingToSort(key);
    } else {
      var n := |s| - 1;
      OrderedIsSorted(s[..n], key);
      var r := Ordered(s[..n], key);
      Inserted(r, s[n], Place(r, key(s[n]), key), key);
      assert s == s[..n] + [s[n]];
    }
  }

  lemma NothingToSort<T>(key: T -> string)
    ensures SortedBy([], key)
  {
  }

  method SortBy<T>(s: seq<T>, key: T -> string) returns (r: seq<T>)
    ensures r == Ordered(s, key)
    ensures multiset(r) == multiset(s) && SortedBy(r, key)
  {
    hide Ordered, SortedBy, Place;
    NothingOrdered(key);
    OrderedIsSorted(s, key);
    r := [];
    assert s[..0] == [];
    for n := 0 to |s|
      invariant r == Ordered(s[..n], key)
    {
      var i := PlaceFor(r, key(s[n]), key);
      OrderedSnoc(s[..n], s[n], key);
      assert s[..n + 1] == s[..n] + [s[n]];
      r := r[..i] + [s[n]] + r[i..];
    }
    assert s[..|s|] == s;
  }

  /** The search for the place of one more element. */
  method PlaceFor<T>(r: seq<T>, k: string, key: T -> string) returns (i: nat)
    ensures i == Place(r, k, key)
  {
    i := |r|;
    assert r[..i] == r;
    while i > 0 && Before(k, key(r[i - 1]))
      invariant i <= |r|
      invariant Place(r, k, key) == Place(r[..i], k, key)
    {
      assert r[..i][..i - 1] == r[..i - 1];
      i := i - 1;
    }
  }

  lemma NothingOrdered<T>(key: T -> string)
    ensures Ordered([], key) == []
  {
  }

  lemma {:induction false} OrderedSnoc<T>(s: seq<T>, x: T, key: T -> string)
    ensures var r := Ordered(s, key);
            var i := Place(r, key(x), key);
            Ordered(s + [x], key) == r[..i] + [x] + r[i..]
  {
    hide Place;
    assert (s + [x])[..|s|] == s;
  }

  ghost predicate ToldApart<T>(s: seq<T>, key: T -> string) {
    forall x, y :: x in s && y in s && key(x) == key(y) ==> x == y
  }

  /** A sorted list whose elements are told apart by their keys is determined by its elements. */
  lemma {:induction false} OrderIsUnique<T>(a: seq<T>, b: seq<T>, key: T -> string)
    requires multiset(a) == multiset(b) && SortedBy(a, key) && SortedBy(b, key) && ToldApart(a, key)
    ensures a == b
  {
    hide SortedBy, ToldApart;
    assert |multiset(a)| == |a| && |multiset(b)| == |b|;
    if a != [] {
      var n := |a| - 1;
      SameLast(a, b, key);
      FrontSorted(a, key);
      FrontSorted(b, key);
      FrontToldApart(a, key);
      assert a == a[..n] + [a[n]] && b == b[..n] + [a[n]];
      assert multiset(a[..n]) == multiset(a) - multiset{a[n]};
      assert multiset(b[..n]) == multiset(b) - multiset{a[n]};
      OrderIsUnique(a[..n], b[..n], key);
    }
  }

  lemma {:induction false} SameLast<T>(a: seq<T>, b: seq<T>, key: T -> string)
    requires multiset(a) == multiset(b) && SortedBy(a, key) && SortedBy(b, key) && ToldApart(a, key)
    requires |a| == |b| > 0
    ensures a[|a| - 1] == b[|b| - 1]
  {
    hide SortedBy, AtMost;
    var x, y := a[|a| - 1], b[|b| - 1];
    assert x in multiset(b) && y in multiset(a);
    AtMostLast(a, y, key);
    AtMostLast(b, x, key);
    AtMostAntisymmetric(key(x), key(y));
  }

  lemma FrontSorted<T>(s: seq<T>, key: T -> string)
    requires s != [] && SortedBy(s, key)
    ensures SortedBy(s[..|s| - 1], key)
  {
  }

  lemma {:induction false} FrontToldApart<T>(s: seq<T>, key: T -> string)
    requires s != [] && ToldApart(s, key)
    ensures ToldApart(s[..|s| - 1], key)
  {
    assert forall x :: x in s[..|s| - 1] ==> x in s;
  }

  lemma {:induction false} AtMostLast<T>(s: seq<T>, x: T, key: T -> string)
    requires SortedBy(s, key) && x in s
    ensures AtMost(key(x), key(s[|s| - 1]))
  {
    var i :| 0 <= i < |s| && s[i] == x;
    assert i < |s| - 1 ==> AtMost(key(s[i]), key(s[|s| - 1]));
  }

  lemma {:induction false} AtMostAntisymmetric(a: string, b: string)
    requires AtMost(a, b) && AtMost(b, a)
    ensures a == b
  {
    if a != b {
      BeforeTransitive(a, b, a);
      BeforeIrreflexive(a);
    }
  }

  function Itself(s: string): string { s }

  /** Comparing sorted copies compares multisets. */
  lemma {:induction false} SortedEqualIff(a: seq<string>, b: seq<string>)
    ensures Ordered(a, Itself) == Ordered(b, Itself) <==> multiset(a) == multiset(b)
  {
    OrderedIsSorted(a, Itself);
    OrderedIsSorted(b, Itself);
    if multiset(a) == multiset(b) {
      OrderIsUnique(Ordered(a, Itself), Ordered(b, Itself), Itself);
    }
  }

  lemma {:induction false} Inserted<T>(r: seq<T>, x: T, i: nat, key: T -> string)
    requires SortedBy(r, key) && i <= |r|
    requires forall j :: i <= j < |r| ==> Before(key(x), key(r[j]))
    requires i > 0 ==> !Before(key(x), key(r[i - 1]))
    ensures SortedBy(r[..i] + [x] + r[i..], key)
    ensures multiset(r[..i] + [x] + r[i..]) == multiset(r) + multiset{x}
  {
    hide Before;
    var s := r[..i] + [x] + r[i..];
    InsertedMultiset(r, x, i);
    if i > 0 {
      BeforeTotal(key(x), key(r[i - 1]));
      forall j | 0 <= j < i
        ensures AtMost(key(r[j]), key(x))
      {
        AtMostTransitive(key(r[j]), key(r[i - 1]), key(x));
      }
    }
    forall j, k | 0 <= j < k < |s|
      ensures AtMost(key(s[j]), key(s[k]))
    {
      var j', k' := if j < i then j else j - 1, if k < i then k else k - 1;
      assert j != i ==> s[j] == r[j'];
      assert k != i ==> s[k] == r[k'];
    }
  }

  lemma {:induction false} InsertedMultiset<T>(r: seq<T>, x: T, i: nat)
    requires i <= |r|
    ensures multiset(r[..i] + [x] + r[i..]) == multiset(r) + multiset{x}
  {
    assert r == r[..i] + r[i..];
  }

  lemma {:induction false} AtMostTransitive(a: string, b: string, c: string)
    requires AtMost(a, b) && AtMost(b, c)
    ensures AtMost(a, c)
  {
    if a != b && b != c {
      BeforeTransitive(a, b, c);
    }
  }
}
