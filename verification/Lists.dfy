/** Order-preserving removal of duplicates: Python's `list(dict.fromkeys(s))`. */
module OrderedSets {

  ghost predicate NoDup<T>(s: seq<T>) {
    forall i, j :: 0 <= i < j < |s| ==> s[i] != s[j]
  }

  function Dedupe<T(==)>(s: seq<T>): seq<T> {
    if s == [] then []
    else
      var front, x := s[..|s| - 1], s[|s| - 1];
      if x in front then Dedupe(front) else Dedupe(front) + [x]
  }

  /** The ordered union of two lists. */
  function Union<T(==)>(a: seq<T>, b: seq<T>): seq<T> {
    Dedupe(a + b)
  }

  /** The same elements, each once. */
  lemma {:induction false} DedupeElements<T>(s: seq<T>)
    ensures NoDup(Dedupe(s))
    ensures (forall x | x in Dedupe(s) :: x in s) && (forall x | x in s :: x in Dedupe(s))
  {
    if s != [] {
      var front, x := s[..|s| - 1], s[|s| - 1];
      assert s == front + [x];
      DedupeElements(front);
    }
  }

  /** The position of the first occurrence. */
  function FirstIndex<T(==)>(s: seq<T>, x: T): (i: nat)
    requires x in s
    ensures i < |s| && s[i] == x
    ensures forall j :: 0 <= j < i ==> s[j] != x
  {
    if s[0] == x then 0 else 1 + FirstIndex(s[1..], x)
  }

  /** Survivors keep the order in which they first occurred. */
  lemma {:induction false} DedupeKeepsFirstOccurrenceOrder<T>(s: seq<T>, i: nat, j: nat)
    requires i < j < |Dedupe(s)|
    ensures Dedupe(s)[i] in s && Dedupe(s)[j] in s && FirstIndex(s, Dedupe(s)[i]) < FirstIndex(s, Dedupe(s)[j])
  {
    DedupeElements(s);
    DedupeElements(s[..|s| - 1]);
    var front, x := s[..|s| - 1], s[|s| - 1];
    assert s == front + [x];
    if j < |Dedupe(front)| {
      DedupeKeepsFirstOccurrenceOrder(front, i, j);
      FirstIndexOfPrefix(front, x, Dedupe(s)[i]);
      FirstIndexOfPrefix(front, x, Dedupe(s)[j]);
    } else {
      FirstIndexOfPrefix(front, x, Dedupe(s)[i]);
    }
  }

  lemma {:induction false} FirstIndexOfPrefix<T>(front: seq<T>, last: T, x: T)
    requires x in front
    ensures FirstIndex(front + [last], x) == FirstIndex(front, x)
  {
    var s := front + [last];
    var i, j := FirstIndex(front, x), FirstIndex(s, x);
    assert s[i] == front[i];
    assert j <= i;
    assert s[j] == front[j];
  }

  lemma {:induction false} DedupeNoDup<T>(s: seq<T>)
    requires NoDup(s)
    ensures Dedupe(s) == s
  {
    if s != [] {
      var front, x := s[..|s| - 1], s[|s| - 1];
      assert s == front + [x];
      DedupeNoDup(front);
    }
  }

  lemma {:induction false} DedupeLeft<T>(a: seq<T>, b: seq<T>)
    ensures Dedupe(Dedupe(a) + b) == Dedupe(a + b)
  {
    if b == [] {
      assert a + b == a && Dedupe(a) + b == Dedupe(a);
      DedupeElements(a);
      DedupeNoDup(Dedupe(a));
    } else {
      var front, x := b[..|b| - 1], b[|b| - 1];
      DedupeLeft(a, front);
      DedupeElements(a);
      assert (a + b)[..|a + b| - 1] == a + front;
      var d := Dedupe(a);
      assert (d + b)[..|d + b| - 1] == d + front;
    }
  }

  lemma {:induction false} DedupeRight<T>(a: seq<T>, b: seq<T>)
    ensures Dedupe(a + Dedupe(b)) == Dedupe(a + b)
  {
    if b == [] {
    } else {
      var front, x := b[..|b| - 1], b[|b| - 1];
      assert b == front + [x];
      DedupeRight(a, front);
      DedupeElements(front);
      assert (a + b)[..|a + b| - 1] == a + front;
      if x !in front {
        var d := Dedupe(front);
        var ad := a + Dedupe(b);
        assert Dedupe(b) == d + [x];
        assert ad[..|ad| - 1] == a + d;
        assert ad[|ad| - 1] == x;
      }
    }
  }

  lemma {:induction false} UnionAssociative<T>(a: seq<T>, b: seq<T>, c: seq<T>)
    ensures Union(Union(a, b), c) == Union(a, Union(b, c)) == Dedupe(a + b + c)
  {
    hide Dedupe;
    DedupeLeft(a + b, c);
    DedupeRight(a, b + c);
    assert a + (b + c) == a + b + c;
  }

  lemma {:induction false} UnionAbsorbs<T>(a: seq<T>, b: seq<T>)
    ensures Union(Union(a, b), b) == Union(a, b)
  {
    DedupeLeft(a + b, b);
    DedupeTail(a + b, b);
  }

  /** Appending elements that are already there changes nothing. */
  lemma {:induction false} DedupeTail<T>(a: seq<T>, b: seq<T>)
    requires forall x | x in b :: x in a
    ensures Dedupe(a + b) == Dedupe(a)
  {
    if b == [] {
      assert a + b == a;
    } else {
      var front, x := b[..|b| - 1], b[|b| - 1];
      assert b == front + [x];
      DedupeTail(a, front);
      assert (a + b)[..|a + b| - 1] == a + front;
    }
  }
}

/** Counting positions. */
module Counting {

  lemma {:induction false} OneMorePosition(n: nat, p: int -> bool)
    ensures |set i | 0 <= i < n + 1 && p(i)| == |set i | 0 <= i < n && p(i)| + if p(n) then 1 else 0
  {
    assert (set i | 0 <= i < n + 1 && p(i)) == (set i | 0 <= i < n && p(i)) + if p(n) then {n} else {};
  }
}

/** Mapping each element to a list and joining the results. */
module Flattening {

  function FlatMap<T, V>(xs: seq<T>, f: T -> seq<V>): seq<V> {
    if xs == [] then [] else FlatMap(xs[..|xs| - 1], f) + f(xs[|xs| - 1])
  }

  lemma {:induction false} FlatMapSnoc<T, V>(xs: seq<T>, x: T, f: T -> seq<V>)
    ensures FlatMap(xs + [x], f) == FlatMap(xs, f) + f(x)
  {
    assert (xs + [x])[..|xs|] == xs;
  }

  lemma {:induction false} FlatMapCons<T, V>(x: T, xs: seq<T>, f: T -> seq<V>)
    ensures FlatMap([x] + xs, f) == f(x) + FlatMap(xs, f)
  {
    var all := [x] + xs;
    if xs == [] {
      assert all[..0] == [] && FlatMap(all, f) == [] + f(x);
    } else {
      FlatMapCons(x, xs[..|xs| - 1], f);
      assert all[..|all| - 1] == [x] + xs[..|xs| - 1];
    }
  }

  lemma {:induction false} FlatMapOne<T, V>(xs: seq<T>, f: T -> seq<V>)
    requires |xs| == 1
    ensures FlatMap(xs, f) == f(xs[0])
  {
    assert FlatMap(xs[..0], f) == [];
  }

  lemma {:induction false} InFlatMap<T, V>(xs: seq<T>, f: T -> seq<V>, y: V)
    ensures y in FlatMap(xs, f) <==> exists i :: 0 <= i < |xs| && y in f(xs[i])
  {
    if xs != [] {
      var n := |xs| - 1;
      InFlatMap(xs[..n], f, y);
      assert forall i :: 0 <= i < n ==> xs[..n][i] == xs[i];
    }
  }

  lemma {:induction false} FlatMapEmptyIff<T, V>(xs: seq<T>, f: T -> seq<V>)
    ensures FlatMap(xs, f) == [] <==> forall x :: x in xs ==> f(x) == []
  {
    if xs != [] {
      var n := |xs| - 1;
      FlatMapEmptyIff(xs[..n], f);
      assert xs == xs[..n] + [xs[n]];
    }
  }
}

/**
 * Insertion-ordered collections addressed by a key of their elements: a Python
 * dict seen as its list of items, and the service list of a host.
 */
module KeyedLists {
  import opened OrderedSets
  import opened Wrappers

  /** The first position holding key `k`, or the length when there is none. */
  function Find<T, K(==)>(s: seq<T>, key: T -> K, k: K): (i: nat)
    ensures i <= |s|
    ensures forall j :: 0 <= j < i ==> key(s[j]) != k
    ensures i < |s| ==> key(s[i]) == k
  {
    FindFrom(s, key, k, 0)
  }

  function FindFrom<T, K(==)>(s: seq<T>, key: T -> K, k: K, start: nat): (i: nat)
    requires start <= |s|
    ensures start <= i <= |s|
    ensures forall j :: start <= j < i ==> key(s[j]) != k
    ensures i < |s| ==> key(s[i]) == k
    decreases |s| - start
  {
    if start == |s| || key(s[start]) == k then start else FindFrom(s, key, k, start + 1)
  }

  predicate HasKey<T, K(==)>(s: seq<T>, key: T -> K, k: K) {
    Find(s, key, k) < |s|
  }

  function Get<T, K(==)>(s: seq<T>, key: T -> K, k: K): Option<T> {
    var i := Find(s, key, k);
    if i < |s| then Some(s[i]) else None
  }

  function KeysOf<T, K>(s: seq<T>, key: T -> K): (r: seq<K>)
    ensures |r| == |s|
    ensures forall i :: 0 <= i < |s| ==> r[i] == key(s[i])
  {
    if s == [] then [] else KeysOf(s[..|s| - 1], key) + [key(s[|s| - 1])]
  }

  function KeySet<T, K(==, !new)>(s: seq<T>, key: T -> K): (r: set<K>)
    ensures forall k :: k in r <==> HasKey(s, key, k)
  {
    assert forall i :: 0 <= i < |s| ==> HasKey(s, key, key(s[i]));
    set i | 0 <= i < |s| :: key(s[i])
  }

  ghost predicate Distinct<T, K>(s: seq<T>, key: T -> K) {
    forall i, j :: 0 <= i < j < |s| ==> key(s[i]) != key(s[j])
  }

  /** Combine `x` into the first element of its key, or append it. */
  function Upsert<T, K(==)>(s: seq<T>, x: T, key: T -> K, combine: (T, T) -> T): seq<T> {
    var i := Find(s, key, key(x));
    if i < |s| then s[i := combine(s[i], x)] else s + [x]
  }

  function UpsertAll<T, K(==)>(s: seq<T>, xs: seq<T>, key: T -> K, combine: (T, T) -> T): seq<T> {
    if xs == [] then s
    else Upsert(UpsertAll(s, xs[..|xs| - 1], key, combine), xs[|xs| - 1], key, combine)
  }

  /** The two ways a collision is settled in plain dictionaries. */
  function TakeNew<T>(old_: T, new_: T): T { new_ }

  function TakeOld<T>(old_: T, new_: T): T { old_ }

  ghost predicate KeepsKey<T(!new), K(!new)>(key: T -> K, combine: (T, T) -> T) {
    forall x, y :: key(x) == key(y) ==> key(combine(x, y)) == key(x)
  }

  /** Associativity whenever the middle argument is `ok`, and `ok` is closed. */
  ghost predicate AssociativeOn<T(!new)>(combine: (T, T) -> T, ok: T -> bool) {
    && (forall x, y, z :: ok(y) ==> combine(combine(x, y), z) == combine(x, combine(y, z)))
    && (forall x, y :: ok(x) && ok(y) ==> ok(combine(x, y)))
  }

  lemma FindIs<T, K>(s: seq<T>, key: T -> K, k: K, i: nat)
    requires i <= |s| && (i < |s| ==> key(s[i]) == k)
    requires forall j :: 0 <= j < i ==> key(s[j]) != k
    ensures Find(s, key, k) == i
  {
  }

  lemma HasKeyAt<T, K>(s: seq<T>, key: T -> K, i: nat)
    requires i < |s|
    ensures HasKey(s, key, key(s[i]))
  {
  }

  /** In a list of distinct keys an element is found at its own position. */
  lemma {:induction false} FindDistinct<T, K>(s: seq<T>, key: T -> K, i: nat)
    requires i < |s| && Distinct(s, key)
    ensures Find(s, key, key(s[i])) == i
  {
    FindIs(s, key, key(s[i]), i);
  }

  /** One upsert changes the entry of its own key and no other. */
  lemma {:induction false} UpsertGet<T(!new), K(!new)>(s: seq<T>, x: T, key: T -> K, combine: (T, T) -> T, k: K)
    requires KeepsKey(key, combine)
    ensures Get(Upsert(s, x, key, combine), key, k) ==
            if k != key(x) then Get(s, key, k)
            else if HasKey(s, key, k) then Some(combine(Get(s, key, k).value, x))
            else Some(x)
  {
    var i, f, r := Find(s, key, key(x)), Find(s, key, k), Upsert(s, x, key, combine);
    if i < |s| {
      FindIs(r, key, k, f);
    } else if k == key(x) {
      FindIs(r, key, k, |s|);
    } else {
      FindIs(r, key, k, if f < |s| then f else |s| + 1);
    }
  }

  lemma UpsertDistinct<T(!new), K(!new)>(s: seq<T>, x: T, key: T -> K, combine: (T, T) -> T)
    requires KeepsKey(key, combine) && Distinct(s, key)
    ensures Distinct(Upsert(s, x, key, combine), key)
  {
  }

  lemma {:induction false} UpsertAllDistinct<T(!new), K(!new)>(s: seq<T>, xs: seq<T>, key: T -> K, combine: (T, T) -> T)
    requires KeepsKey(key, combine) && Distinct(s, key)
    ensures Distinct(UpsertAll(s, xs, key, combine), key)
  {
    if xs != [] {
      UpsertAllDistinct(s, xs[..|xs| - 1], key, combine);
      UpsertDistinct(UpsertAll(s, xs[..|xs| - 1], key, combine), xs[|xs| - 1], key, combine);
    }
  }

  /** A fold of upserts splits at any point of its argument list. */
  lemma {:induction false} UpsertAllConcat<T, K>(s: seq<T>, xs: seq<T>, ys: seq<T>, key: T -> K, combine: (T, T) -> T)
    ensures UpsertAll(s, xs + ys, key, combine) == UpsertAll(UpsertAll(s, xs, key, combine), ys, key, combine)
  {
    if ys == [] {
      assert xs + ys == xs;
    } else {
      UpsertAllConcat(s, xs, ys[..|ys| - 1], key, combine);
      assert (xs + ys)[..|xs + ys| - 1] == xs + ys[..|ys| - 1];
    }
  }

  /** What is stored under `k`: the old entry, the combination, or the last arrival. */
  lemma {:induction false} UpsertAllGet<T(!new), K(!new)>(
      s: seq<T>, xs: seq<T>, key: T -> K, combine: (T, T) -> T, k: K)
    requires KeepsKey(key, combine) && Distinct(xs, key)
    ensures Get(UpsertAll(s, xs, key, combine), key, k) ==
            if !HasKey(xs, key, k) then Get(s, key, k)
            else if !HasKey(s, key, k) then Get(xs, key, k)
            else Some(combine(Get(s, key, k).value, Get(xs, key, k).value))
  {
    if xs != [] {
      var n := |xs| - 1;
      UpsertAllGet(s, xs[..n], key, combine, k);
      UpsertGet(UpsertAll(s, xs[..n], key, combine), xs[n], key, combine, k);
      FindFront(xs, key, k);
    }
  }

  lemma {:induction false} FindFront<T, K>(xs: seq<T>, key: T -> K, k: K)
    requires xs != []
    ensures var f := Find(xs[..|xs| - 1], key, k);
            Find(xs, key, k) == if f < |xs| - 1 || key(xs[|xs| - 1]) == k then f else |xs|
  {
    var f := Find(xs[..|xs| - 1], key, k);
    FindIs(xs, key, k, if f < |xs| - 1 || key(xs[|xs| - 1]) == k then f else |xs|);
  }

  /** The key order is the ordered union of the two key orders. */
  lemma {:induction false} UpsertAllKeys<T(!new), K(!new)>(s: seq<T>, xs: seq<T>, key: T -> K, combine: (T, T) -> T)
    requires KeepsKey(key, combine) && Distinct(s, key)
    ensures KeysOf(UpsertAll(s, xs, key, combine), key) == Union(KeysOf(s, key), KeysOf(xs, key))
  {
    var ks, kxs := KeysOf(s, key), KeysOf(xs, key);
    DedupeElements(ks + kxs[..|kxs| - (if xs == [] then 0 else 1)]);
    if xs == [] {
      DedupeNoDup(ks);
      assert ks + kxs == ks;
    } else {
      var n := |xs| - 1;
      UpsertAllKeys(s, xs[..n], key, combine);
      var r, x := UpsertAll(s, xs[..n], key, combine), xs[n];
      UpsertKeys(r, x, key, combine);
      assert (ks + kxs)[..|ks + kxs| - 1] == ks + KeysOf(xs[..n], key);
      HasKeyIffIn(r, key, key(x));
    }
  }

  lemma {:induction false} HasKeyIffIn<T, K>(s: seq<T>, key: T -> K, k: K)
    ensures HasKey(s, key, k) <==> k in KeysOf(s, key)
  {
    if k in KeysOf(s, key) {
      var i :| 0 <= i < |s| && KeysOf(s, key)[i] == k;
    }
    if HasKey(s, key, k) {
      assert KeysOf(s, key)[Find(s, key, k)] == k;
    }
  }

  lemma {:induction false} UpsertKeys<T(!new), K(!new)>(s: seq<T>, x: T, key: T -> K, combine: (T, T) -> T)
    requires KeepsKey(key, combine)
    ensures KeysOf(Upsert(s, x, key, combine), key) ==
            if HasKey(s, key, key(x)) then KeysOf(s, key) else KeysOf(s, key) + [key(x)]
  {
    var r := Upsert(s, x, key, combine);
    assert !HasKey(s, key, key(x)) ==> r[..|r| - 1] == s;
  }

  /** Two lists of distinct keys in the same order with the same entries are equal. */
  lemma {:induction false} SameEntries<T, K(!new)>(s: seq<T>, t: seq<T>, key: T -> K)
    requires Distinct(s, key) && Distinct(t, key)
    requires KeysOf(s, key) == KeysOf(t, key)
    requires forall k :: Get(s, key, k) == Get(t, key, k)
    ensures s == t
  {
    assert |s| == |KeysOf(s, key)| == |t|;
    forall i | 0 <= i < |s|
      ensures s[i] == t[i]
    {
      assert KeysOf(s, key)[i] == key(s[i]) && KeysOf(t, key)[i] == key(t[i]);
      FindDistinct(s, key, i);
      FindDistinct(t, key, i);
      assert Get(s, key, key(s[i])) == Get(t, key, key(s[i]));
    }
  }

  lemma {:induction false} UpsertsCommute<T(!new), K(!new)>(s: seq<T>, y: T, z: T, key: T -> K, combine: (T, T) -> T)
    requires KeepsKey(key, combine)
    requires key(y) != key(z) && HasKey(s, key, key(z))
    ensures Upsert(Upsert(s, y, key, combine), z, key, combine) == Upsert(Upsert(s, z, key, combine), y, key, combine)
  {
    var j, i := Find(s, key, key(y)), Find(s, key, key(z));
    var sy, sz := Upsert(s, y, key, combine), Upsert(s, z, key, combine);
    FindIs(sy, key, key(z), i);
    FindIs(sz, key, key(y), j);
  }

  /** Two arrivals under one key may be combined first. */
  lemma {:induction false} UpsertsOfOneKey<T(!new), K(!new)>(
      s: seq<T>, x: T, z: T, key: T -> K, combine: (T, T) -> T, ok: T -> bool)
    requires KeepsKey(key, combine) && AssociativeOn(combine, ok)
    requires key(x) == key(z) && ok(x)
    ensures Upsert(Upsert(s, x, key, combine), z, key, combine) == Upsert(s, combine(x, z), key, combine)
  {
    var i := Find(s, key, key(x));
    FindIs(Upsert(s, x, key, combine), key, key(z), i);
    if i < |s| {
      assert combine(combine(s[i], x), z) == combine(s[i], combine(x, z));
    }
  }

  /** An upsert that does not concern the last element acts on the rest. */
  lemma {:induction false} UpsertFront<T(!new), K(!new)>(b: seq<T>, x: T, z: T, key: T -> K, combine: (T, T) -> T)
    requires KeepsKey(key, combine)
    requires HasKey(b, key, key(z))
    ensures Upsert(b + [x], z, key, combine) == Upsert(b, z, key, combine) + [x]
  {
    FindIs(b + [x], key, key(z), Find(b, key, key(z)));
  }

  lemma {:induction false} UpsertLast<T(!new), K(!new)>(b: seq<T>, x: T, z: T, key: T -> K, combine: (T, T) -> T)
    requires key(x) == key(z) && !HasKey(b, key, key(z))
    ensures Upsert(b + [x], z, key, combine) == b + [combine(x, z)]
  {
    FindIs(b + [x], key, key(z), |b|);
  }

  lemma {:induction false} UpsertAllSnoc<T, K>(a: seq<T>, b: seq<T>, x: T, key: T -> K, combine: (T, T) -> T)
    ensures UpsertAll(a, b + [x], key, combine) == Upsert(UpsertAll(a, b, key, combine), x, key, combine)
  {
    assert (b + [x])[..|b|] == b;
  }

  lemma {:induction false} UpsertInto<T(!new), K(!new)>(
      a: seq<T>, b: seq<T>, z: T, key: T -> K, combine: (T, T) -> T, ok: T -> bool)
    requires KeepsKey(key, combine) && AssociativeOn(combine, ok)
    requires Distinct(b, key) && forall x :: x in b ==> ok(x)
    ensures UpsertAll(a, Upsert(b, z, key, combine), key, combine) ==
            Upsert(UpsertAll(a, b, key, combine), z, key, combine)
  {
    if !HasKey(b, key, key(z)) {
      UpsertAllSnoc(a, b, z, key, combine);
    } else {
      var n := |b| - 1;
      var front, x := b[..n], b[n];
      assert b == front + [x];
      var s := UpsertAll(a, front, key, combine);
      FindFront(b, key, key(z));
      if key(x) == key(z) {
        FindDistinct(b, key, n);
        UpsertLast(front, x, z, key, combine);
        UpsertAllSnoc(a, front, combine(x, z), key, combine);
        UpsertsOfOneKey(s, x, z, key, combine, ok);
      } else {
        UpsertFront(front, x, z, key, combine);
        UpsertAllSnoc(a, Upsert(front, z, key, combine), x, key, combine);
        UpsertInto(a, front, z, key, combine, ok);
        UpsertAllHas(a, front, key, combine, key(z));
        UpsertsCommute(s, x, z, key, combine);
      }
    }
  }

  lemma {:induction false} UpsertAllHas<T(!new), K(!new)>(
      s: seq<T>, xs: seq<T>, key: T -> K, combine: (T, T) -> T, k: K)
    requires KeepsKey(key, combine)
    ensures HasKey(UpsertAll(s, xs, key, combine), key, k) <==> HasKey(s, key, k) || HasKey(xs, key, k)
  {
    if xs != [] {
      var n := |xs| - 1;
      UpsertAllHas(s, xs[..n], key, combine, k);
      UpsertGet(UpsertAll(s, xs[..n], key, combine), xs[n], key, combine, k);
      FindFront(xs, key, k);
    }
  }

  lemma {:induction false} UpsertAllOk<T(!new), K(!new)>(
      s: seq<T>, xs: seq<T>, key: T -> K, combine: (T, T) -> T, ok: T -> bool)
    requires AssociativeOn(combine, ok)
    requires (forall x :: x in s ==> ok(x)) && (forall x :: x in xs ==> ok(x))
    ensures forall x :: x in UpsertAll(s, xs, key, combine) ==> ok(x)
  {
    if xs != [] {
      UpsertAllOk(s, xs[..|xs| - 1], key, combine, ok);
    }
  }

  /** Keyed merging is associative: the grouping of three collections is irrelevant, order included. */
  lemma {:induction false} UpsertAllAssociative<T(!new), K(!new)>(
      a: seq<T>, b: seq<T>, c: seq<T>, key: T -> K, combine: (T, T) -> T, ok: T -> bool)
    requires KeepsKey(key, combine) && AssociativeOn(combine, ok)
    requires Distinct(b, key) && (forall x :: x in b ==> ok(x)) && (forall x :: x in c ==> ok(x))
    ensures UpsertAll(UpsertAll(a, b, key, combine), c, key, combine) ==
            UpsertAll(a, UpsertAll(b, c, key, combine), key, combine)
  {
    if c != [] {
      var front, z := c[..|c| - 1], c[|c| - 1];
      UpsertAllAssociative(a, b, front, key, combine, ok);
      UpsertAllDistinct(b, front, key, combine);
      UpsertAllOk(b, front, key, combine, ok);
      UpsertInto(a, UpsertAll(b, front, key, combine), z, key, combine, ok);
    }
  }

  /** Replace-or-append, over and over: Python's `d.update(xs)`. */
  function PutAll<T, K(==)>(s: seq<T>, xs: seq<T>, key: T -> K): seq<T> {
    UpsertAll(s, xs, key, TakeNew)
  }

  /** The last element of `xs` under key `k`. */
  function Last<T, K(==)>(xs: seq<T>, key: T -> K, k: K): Option<T> {
    if xs == [] then None
    else if key(xs[|xs| - 1]) == k then Some(xs[|xs| - 1]) else Last(xs[..|xs| - 1], key, k)
  }

  /** Replacing keeps the last arrival of every key, whatever was repeated on the way. */
  lemma {:induction false} PutAllGet<T(!new), K(!new)>(s: seq<T>, xs: seq<T>, key: T -> K, k: K)
    ensures Get(PutAll(s, xs, key), key, k) == if HasKey(xs, key, k) then Last(xs, key, k) else Get(s, key, k)
  {
    if xs != [] {
      var n := |xs| - 1;
      PutAllGet(s, xs[..n], key, k);
      UpsertGet(PutAll(s, xs[..n], key), xs[n], key, TakeNew, k);
      FindFront(xs, key, k);
    }
  }

  lemma {:induction false} SameFromEmpty<T(!new), K(!new)>(xs: seq<T>, ys: seq<T>, key: T -> K)
    requires Dedupe(KeysOf(xs, key)) == Dedupe(KeysOf(ys, key))
    requires forall k :: HasKey(xs, key, k) ==> Last(xs, key, k) == Last(ys, key, k)
    ensures PutAll([], xs, key) == PutAll([], ys, key)
  {
    hide Dedupe;
    var u, v := PutAll([], xs, key), PutAll([], ys, key);
    UpsertAllDistinct([], xs, key, TakeNew);
    UpsertAllDistinct([], ys, key, TakeNew);
    UpsertAllKeys([], xs, key, TakeNew);
    UpsertAllKeys([], ys, key, TakeNew);
    assert [] + KeysOf(xs, key) == KeysOf(xs, key) && [] + KeysOf(ys, key) == KeysOf(ys, key);
    SameKeys(xs, ys, key);
    forall k
      ensures Get(u, key, k) == Get(v, key, k)
    {
      PutAllGet([], xs, key, k);
      PutAllGet([], ys, key, k);
    }
    SameEntries(u, v, key);
  }

  /** Only the key order and the last arrivals of `xs` matter to `PutAll`. */
  lemma {:induction false} PutAllEqual<T(!new), K(!new)>(s: seq<T>, xs: seq<T>, ys: seq<T>, key: T -> K)
    requires Dedupe(KeysOf(xs, key)) == Dedupe(KeysOf(ys, key))
    ensures PutAll(s, xs, key) == PutAll(s, ys, key) <==>
            forall k :: HasKey(xs, key, k) ==> Last(xs, key, k) == Last(ys, key, k)
  {
    SameKeys(xs, ys, key);
    if forall k :: HasKey(xs, key, k) ==> Last(xs, key, k) == Last(ys, key, k) {
      SameFromEmpty(xs, ys, key);
      UpsertAllAssociative(s, [], xs, key, TakeNew, (x: T) => true);
      UpsertAllAssociative(s, [], ys, key, TakeNew, (x: T) => true);
    } else {
      var k :| HasKey(xs, key, k) && Last(xs, key, k) != Last(ys, key, k);
      PutAllGet(s, xs, key, k);
      PutAllGet(s, ys, key, k);
    }
  }

  lemma {:induction false} SameKeys<T, K(!new)>(xs: seq<T>, ys: seq<T>, key: T -> K)
    requires Dedupe(KeysOf(xs, key)) == Dedupe(KeysOf(ys, key))
    ensures forall k :: HasKey(xs, key, k) <==> HasKey(ys, key, k)
  {
    forall k
      ensures HasKey(xs, key, k) <==> HasKey(ys, key, k)
    {
      HasKeyIffIn(xs, key, k);
      HasKeyIffIn(ys, key, k);
      DedupeElements(KeysOf(xs, key));
      DedupeElements(KeysOf(ys, key));
      assert k in Dedupe(KeysOf(xs, key)) <==> k in KeysOf(xs, key);
      assert k in Dedupe(KeysOf(ys, key)) <==> k in KeysOf(ys, key);
    }
  }

  lemma {:induction false} LastConcat<T, K>(xs: seq<T>, ys: seq<T>, key: T -> K, k: K)
    ensures Last(xs + ys, key, k) == if HasKey(ys, key, k) then Last(ys, key, k) else Last(xs, key, k)
  {
    if ys == [] {
      assert xs + ys == xs;
    } else {
      LastConcat(xs, ys[..|ys| - 1], key, k);
      assert (xs + ys)[..|xs + ys| - 1] == xs + ys[..|ys| - 1];
      FindFront(ys, key, k);
    }
  }

  lemma {:induction false} KeysOfConcat<T, K>(xs: seq<T>, ys: seq<T>, key: T -> K)
    ensures KeysOf(xs + ys, key) == KeysOf(xs, key) + KeysOf(ys, key)
  {
  }

  /** Putting the same elements twice is putting them once. */
  /** Two keys that tell the same elements apart file alike. */
  ghost predicate SameIdentity<T(!new), K, L>(k: T -> K, l: T -> L) {
    forall x, y :: k(x) == k(y) <==> l(x) == l(y)
  }

  lemma {:induction false} FindAlike<T(!new), K, L>(s: seq<T>, k: T -> K, l: T -> L, x: T)
    requires SameIdentity(k, l)
    ensures Find(s, k, k(x)) == Find(s, l, l(x))
  {
    FindIs(s, l, l(x), Find(s, k, k(x)));
  }

  lemma {:induction false} PutAllAlike<T(!new), K, L>(s: seq<T>, xs: seq<T>, k: T -> K, l: T -> L)
    requires SameIdentity(k, l)
    ensures PutAll(s, xs, k) == PutAll(s, xs, l)
  {
    if xs != [] {
      var n := |xs| - 1;
      PutAllAlike(s, xs[..n], k, l);
      FindAlike(PutAll(s, xs[..n], k), k, l, xs[n]);
    }
  }

  lemma {:induction false} PutAllIdempotent<T(!new), K(!new)>(s: seq<T>, xs: seq<T>, key: T -> K)
    ensures PutAll(PutAll(s, xs, key), xs, key) == PutAll(s, xs, key)
  {
    UpsertAllConcat(s, xs, xs, key, TakeNew);
    KeysOfConcat(xs, xs, key);
    DedupeTail(KeysOf(xs, key), KeysOf(xs, key));
    forall k | HasKey(xs + xs, key, k)
      ensures Last(xs + xs, key, k) == Last(xs, key, k)
    {
      LastConcat(xs, xs, key, k);
      SameKeys(xs + xs, xs, key);
    }
    PutAllEqual(s, xs + xs, xs, key);
  }

  /** `k` is carried by two elements of `xs`. */
  ghost predicate Repeated<T, K>(xs: seq<T>, key: T -> K, k: K) {
    exists i, j :: 0 <= i < j < |xs| && key(xs[i]) == k && key(xs[j]) == k
  }

  lemma {:induction false} LastSome<T, K>(xs: seq<T>, key: T -> K, k: K)
    ensures Last(xs, key, k).Some? <==> HasKey(xs, key, k)
  {
    if xs != [] {
      LastSome(xs[..|xs| - 1], key, k);
      FindFront(xs, key, k);
    }
  }

  lemma {:induction false} LastIs<T, K>(xs: seq<T>, key: T -> K, k: K, i: nat)
    requires i < |xs| && key(xs[i]) == k
    requires forall j :: i < j < |xs| ==> key(xs[j]) != k
    ensures Last(xs, key, k) == Some(xs[i])
  {
    if i < |xs| - 1 {
      LastIs(xs[..|xs| - 1], key, k, i);
    }
  }

  lemma {:induction false} LastPosition<T, K>(xs: seq<T>, key: T -> K, k: K) returns (i: nat)
    requires HasKey(xs, key, k)
    ensures i < |xs| && key(xs[i]) == k && forall j :: i < j < |xs| ==> key(xs[j]) != k
    ensures Last(xs, key, k) == Some(xs[i])
  {
    if key(xs[|xs| - 1]) == k {
      i := |xs| - 1;
    } else {
      FindFront(xs, key, k);
      i := LastPosition(xs[..|xs| - 1], key, k);
    }
  }

  /** One replacement hits the first element of its key, so a repeated key keeps its last element. */
  lemma {:induction false} PutLast<T(!new), K(!new)>(s: seq<T>, x: T, key: T -> K, k: K)
    ensures var r := Upsert(s, x, key, TakeNew);
            && Last(r, key, k) == (if key(x) == k && !Repeated(s, key, k) then Some(x) else Last(s, key, k))
            && (Repeated(r, key, k) <==> Repeated(s, key, k))
  {
    var f, r := Find(s, key, key(x)), Upsert(s, x, key, TakeNew);
    if Repeated(s, key, k) {
      var i, j :| 0 <= i < j < |s| && key(s[i]) == k && key(s[j]) == k;
      assert key(r[i]) == k && key(r[j]) == k;
    }
    if Repeated(r, key, k) {
      var i, j :| 0 <= i < j < |r| && key(r[i]) == k && key(r[j]) == k;
      assert j < |s| && key(s[i]) == k && key(s[j]) == k;
    }
    if key(x) == k && !Repeated(s, key, k) {
      LastIs(r, key, k, f);
    } else if HasKey(s, key, k) {
      var i := LastPosition(s, key, k);
      LastIs(r, key, k, i);
    } else {
      assert forall i :: 0 <= i < |r| ==> key(r[i]) != k;
      assert !HasKey(r, key, k);
      LastSome(s, key, k);
      LastSome(r, key, k);
    }
  }

  /** Replacing hits the first element of a key, so a repeated key keeps its last element. */
  lemma {:induction false} PutAllLast<T(!new), K(!new)>(s: seq<T>, xs: seq<T>, key: T -> K, k: K)
    ensures Last(PutAll(s, xs, key), key, k) ==
            if HasKey(xs, key, k) && !Repeated(s, key, k) then Last(xs, key, k) else Last(s, key, k)
    ensures Repeated(PutAll(s, xs, key), key, k) <==> Repeated(s, key, k)
  {
    if xs != [] {
      var n := |xs| - 1;
      PutAllLast(s, xs[..n], key, k);
      var r := PutAll(s, xs[..n], key);
      PutLast(r, xs[n], key, k);
      FindFront(xs, key, k);
    }
  }

  /**
   * Grouping three replace-or-append merges either way gives the same list
   * exactly when no key of `c` is repeated in `b` with another last element.
   */
  lemma {:induction false} PutAllAssociativeIff<T(!new), K(!new)>(a: seq<T>, b: seq<T>, c: seq<T>, key: T -> K)
    ensures PutAll(PutAll(a, b, key), c, key) == PutAll(a, PutAll(b, c, key), key) <==>
            forall k :: HasKey(c, key, k) && Repeated(b, key, k) ==> Last(b, key, k) == Last(c, key, k)
  {
    var bc := PutAll(b, c, key);
    UpsertAllConcat(a, b, c, key, TakeNew);
    PutAllDedupedKeys(b, c, key);
    forall k | HasKey(b + c, key, k)
      ensures Last(b + c, key, k) == Last(bc, key, k) <==>
              (HasKey(c, key, k) && Repeated(b, key, k) ==> Last(b, key, k) == Last(c, key, k))
    {
      LastConcat(b, c, key, k);
      PutAllLast(b, c, key, k);
    }
    forall k | HasKey(c, key, k)
      ensures HasKey(b + c, key, k)
    {
      LastConcat(b, c, key, k);
      LastSome(c, key, k);
      LastSome(b + c, key, k);
    }
    PutAllEqual(a, b + c, bc, key);
  }

  lemma {:induction false} PutAllDedupedKeys<T(!new), K(!new)>(s: seq<T>, xs: seq<T>, key: T -> K)
    ensures Dedupe(KeysOf(PutAll(s, xs, key), key)) == Dedupe(KeysOf(s + xs, key))
  {
    if xs == [] {
      assert s + xs == s;
    } else {
      var n := |xs| - 1;
      var r, x := PutAll(s, xs[..n], key), xs[n];
      PutAllDedupedKeys(s, xs[..n], key);
      var k0, k1 := KeysOf(r, key), KeysOf(s + xs[..n], key);
      assert (s + xs)[..|s + xs| - 1] == s + xs[..n];
      assert KeysOf(s + xs, key) == k1 + [key(x)];
      DedupeLeft(k0, [key(x)]);
      DedupeLeft(k1, [key(x)]);
      UpsertKeys(r, x, key, TakeNew);
      HasKeyIffIn(r, key, key(x));
      DedupeSnoc(k0, key(x));
    }
  }

  lemma {:induction false} DedupeSnoc<T>(s: seq<T>, x: T)
    ensures x in s ==> Dedupe(s + [x]) == Dedupe(s)
  {
    assert (s + [x])[..|s|] == s;
  }
}
