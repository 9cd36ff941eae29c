/** Naming snapshots: the suffix loop, and when the sorted ids are the append order. */
module Snapshots {
  import opened Text

  /** The id tried when `suffix` is `k`: the bare stamp first, then `stamp-2`, `stamp-3`, ... */
  function Candidate(stamp: string, k: nat): string {
    stamp + Tail(k)
  }

  function Tail(k: nat): string {
    if k == 1 then "" else "-" + NatDecimal(k)
  }

  lemma {:induction false} TailInjective(j: nat, k: nat)
    requires Tail(j) == Tail(k)
    ensures j == k
  {
    assert (j == 1 <==> |Tail(j)| == 0) && (k == 1 <==> |Tail(k)| == 0);
    if j != 1 {
      assert Tail(j)[1..] == NatDecimal(j) && Tail(k)[1..] == NatDecimal(k);
      NatDecimalInjective(j, k);
    }
  }

  /** Stamps of one width never share a candidate, nor does one stamp twice. */
  lemma {:induction false} CandidateInjective(s: string, j: nat, t: string, k: nat)
    requires |s| == |t| && Candidate(s, j) == Candidate(t, k)
    ensures s == t && j == k
  {
    assert s == Candidate(s, j)[..|s|] && t == Candidate(t, k)[..|t|];
    assert Tail(j) == Candidate(s, j)[|s|..] && Tail(k) == Candidate(t, k)[|t|..];
    TailInjective(j, k);
  }

  /** The existing ids the loop can still run into. */
  ghost function Ahead(existing: set<string>, stamp: string, k: nat): set<string> {
    set id | id in existing && exists j: nat :: k <= j && id == Candidate(stamp, j)
  }

  lemma {:induction false} AheadShrinks(existing: set<string>, stamp: string, k: nat)
    requires Candidate(stamp, k) in existing
    ensures Ahead(existing, stamp, k + 1) < Ahead(existing, stamp, k)
  {
    var id := Candidate(stamp, k);
    assert id in Ahead(existing, stamp, k);
    if id in Ahead(existing, stamp, k + 1) {
      var j: nat :| k + 1 <= j && id == Candidate(stamp, j);
      CandidateInjective(stamp, k, stamp, j);
    }
  }

  /** The least suffix from `k` on whose candidate is free: it exists for every finite set of ids. */
  function FirstFree(existing: set<string>, stamp: string, k: nat): (r: nat)
    ensures k <= r && Candidate(stamp, r) !in existing
    ensures forall j: nat :: k <= j < r ==> Candidate(stamp, j) in existing
    decreases Ahead(existing, stamp, k)
  {
    if Candidate(stamp, k) in existing then
      AheadShrinks(existing, stamp, k);
      FirstFree(existing, stamp, k + 1)
    else k
  }

  function FreshId(existing: set<string>, stamp: string): (id: string)
    ensures id !in existing
  {
    Candidate(stamp, FirstFree(existing, stamp, 1))
  }

  /** The `while candidate.exists()` loop of both backends. */
  method PickId(existing: set<string>, stamp: string) returns (id: string)
    ensures id == FreshId(existing, stamp)
    ensures id !in existing
  {
    id := stamp;
    var suffix := 1;
    assert stamp == Candidate(stamp, 1);
    while id in existing
      invariant suffix >= 1 && id == Candidate(stamp, suffix)
      invariant forall j: nat :: 1 <= j < suffix ==> Candidate(stamp, j) in existing
      decreases Ahead(existing, stamp, suffix)
    {
      AheadShrinks(existing, stamp, suffix);
      suffix := suffix + 1;
      id := stamp + "-" + NatDecimal(suffix);
      assert id == Candidate(stamp, suffix);
    }
    var f := FirstFree(existing, stamp, 1);
    assert f < suffix ==> Candidate(stamp, f) in existing;
  }

  // ---- A run of appends ----

  function Elements(ids: seq<string>): set<string> {
    set id | id in ids
  }

  /** The ids a run of appends with these stamps returns, in append order. */
  function AppendedIds(stamps: seq<string>): (ids: seq<string>)
    ensures |ids| == |stamps|
  {
    if stamps == [] then []
    else
      var n := |stamps| - 1;
      var before := AppendedIds(stamps[..n]);
      before + [FreshId(Elements(before), stamps[n])]
  }

  function Count(stamps: seq<string>, s: string): nat {
    if stamps == [] then 0
    else
      var n := |stamps| - 1;
      Count(stamps[..n], s) + if stamps[n] == s then 1 else 0
  }

  /** How many of the first `i + 1` stamps equal the i-th. */
  function Rank(stamps: seq<string>, i: nat): nat
    requires i < |stamps|
  {
    Count(stamps[..i + 1], stamps[i])
  }

  ghost predicate FixedWidth(stamps: seq<string>) {
    forall i, j :: 0 <= i < |stamps| && 0 <= j < |stamps| ==> |stamps[i]| == |stamps[j]|
  }

  ghost predicate NonDecreasing(stamps: seq<string>) {
    forall i, j :: 0 <= i < j < |stamps| ==> AtMost(stamps[i], stamps[j])
  }

  ghost predicate StrictlySorted(ids: seq<string>) {
    forall i, j :: 0 <= i < j < |ids| ==> Before(ids[i], ids[j])
  }

  lemma {:induction false} AppendedIdsDistinct(stamps: seq<string>, i: nat, j: nat)
    requires i < j < |stamps|
    ensures AppendedIds(stamps)[i] != AppendedIds(stamps)[j]
    decreases |stamps|
  {
    var n := |stamps| - 1;
    var before := AppendedIds(stamps[..n]);
    if j == n {
      assert before[i] in Elements(before);
    } else {
      AppendedIdsDistinct(stamps[..n], i, j);
    }
  }

  lemma LastAppend(stamps: seq<string>, s: string)
    requires stamps != []
    ensures var n := |stamps| - 1;
            var before := AppendedIds(stamps[..n]);
            && AppendedIds(stamps) == before + [FreshId(Elements(before), stamps[n])]
            && Count(stamps, s) == Count(stamps[..n], s) + if stamps[n] == s then 1 else 0
  {
  }

  /** Of a stamp used m times, exactly the candidates 1..m are taken. */
  lemma {:induction false} TakenCandidates(stamps: seq<string>, s: string, k: nat)
    requires FixedWidth(stamps) && (stamps != [] ==> |s| == |stamps[0]|)
    ensures Candidate(s, k) in AppendedIds(stamps) <==> 1 <= k <= Count(stamps, s)
    decreases |stamps|
  {
    hide Candidate, FreshId;
    if stamps != [] {
      var n := |stamps| - 1;
      var before, t := stamps[..n], stamps[n];
      var old_, id := AppendedIds(before), AppendedIds(stamps)[n];
      TakenCandidates(before, s, k);
      AppendedSuffix(stamps);
      LastAppend(stamps, s);
      if Candidate(s, k) == id {
        CandidateInjective(s, k, t, Count(before, t) + 1);
      }
      assert Candidate(s, k) in AppendedIds(stamps) <==> Candidate(s, k) in old_ || Candidate(s, k) == id;
    }
  }

  /** The m-th append of one stamp gets suffix m. */
  lemma {:induction false} AppendedSuffix(stamps: seq<string>)
    requires stamps != [] && FixedWidth(stamps)
    ensures var n := |stamps| - 1;
            AppendedIds(stamps)[n] == Candidate(stamps[n], Count(stamps[..n], stamps[n]) + 1)
    decreases |stamps|, 0
  {
    hide Candidate, Count;
    var n := |stamps| - 1;
    var before, t := stamps[..n], stamps[n];
    var ids, m := AppendedIds(before), Count(before, t);
    LastAppend(stamps, t);
    var f := FirstFree(Elements(ids), t, 1);
    TakenCandidates(before, t, f);
    assert Candidate(t, f) !in ids;
    TakenCandidates(before, t, m + 1);
    assert Candidate(t, m + 1) !in Elements(ids);
  }

  lemma {:induction false} AppendedId(stamps: seq<string>, i: nat)
    requires FixedWidth(stamps) && i < |stamps|
    ensures AppendedIds(stamps)[i] == Candidate(stamps[i], Rank(stamps, i)) && Rank(stamps, i) >= 1
    ensures Rank(stamps, i) == 1 ==> AppendedIds(stamps)[i] == stamps[i]
    ensures Rank(stamps, i) > 1 ==> AppendedIds(stamps)[i] == stamps[i] + "-" + NatDecimal(Rank(stamps, i))
    decreases |stamps|
  {
    hide Candidate, Count, FreshId, NatDecimal;
    CandidateIs(stamps[i], Rank(stamps, i));
    var n := |stamps| - 1;
    LastAppend(stamps, stamps[i]);
    if i == n {
      assert stamps[..n + 1] == stamps;
      AppendedSuffix(stamps);
    } else {
      AppendedId(stamps[..n], i);
      assert stamps[..n][..i + 1] == stamps[..i + 1];
    }
  }

  lemma {:induction false} CandidateIs(stamp: string, k: nat)
    ensures Candidate(stamp, k) == if k == 1 then stamp else stamp + "-" + NatDecimal(k)
  {
    assert stamp + "" == stamp;
  }

  lemma {:induction false} CountMonotone(stamps: seq<string>, i: nat, s: string)
    requires i <= |stamps|
    ensures Count(stamps[..i], s) <= Count(stamps, s)
    decreases |stamps|
  {
    if i < |stamps| {
      CountMonotone(stamps[..|stamps| - 1], i, s);
      assert stamps[..|stamps| - 1][..i] == stamps[..i];
    } else {
      assert stamps[..i] == stamps;
    }
  }

  lemma {:induction false} CountLast(stamps: seq<string>, j: nat)
    requires j < |stamps|
    ensures Count(stamps[..j + 1], stamps[j]) == Count(stamps[..j], stamps[j]) + 1
  {
    assert stamps[..j + 1][..j] == stamps[..j];
  }

  /** Two uses of one stamp have different ranks, the later the greater. */
  lemma {:induction false} RankGrows(stamps: seq<string>, i: nat, j: nat)
    requires i < j < |stamps| && stamps[i] == stamps[j]
    ensures Rank(stamps, i) < Rank(stamps, j) <= Count(stamps, stamps[j])
  {
    hide Count;
    var s := stamps[j];
    CountLast(stamps, j);
    CountMonotone(stamps[..j], i + 1, s);
    assert stamps[..j][..i + 1] == stamps[..i + 1];
    CountMonotone(stamps, j + 1, s);
  }

  lemma {:induction false} UseOfRank(stamps: seq<string>, s: string, r: nat) returns (i: nat)
    requires 1 <= r <= Count(stamps, s)
    ensures i < |stamps| && stamps[i] == s && Rank(stamps, i) == r
  {
    var n := |stamps| - 1;
    if stamps[n] == s && Count(stamps, s) == r {
      i := n;
      assert stamps[..n + 1] == stamps;
    } else {
      i := UseOfRank(stamps[..n], s, r);
      assert stamps[..n][..i + 1] == stamps[..i + 1];
    }
  }

  lemma {:induction false} SingleDigits(j: nat, k: nat)
    requires 1 <= j < k <= 9
    ensures Before(Tail(j), Tail(k))
  {
    if j != 1 {
      assert NatDecimal(j) == [Digit(j)] && NatDecimal(k) == [Digit(k)];
      BeforeSamePrefix("-", [Digit(j)], [Digit(k)]);
    }
  }

  lemma {:induction false} TenBeforeTwo()
    ensures Before(Tail(10), Tail(2))
  {
    assert NatDecimal(10) == NatDecimal(1) + [Digit(0)] == [Digit(1), Digit(0)];
    assert NatDecimal(2) == [Digit(2)];
    BeforeSamePrefix("-", NatDecimal(10), NatDecimal(2));
  }

  /**
   * For non-decreasing stamps of one width, sorting the ids restores the append order
   * exactly when no stamp is used more than nine times.
   */
  lemma {:induction false} SortedIsAppendOrderIff(stamps: seq<string>)
    requires FixedWidth(stamps) && NonDecreasing(stamps)
    ensures StrictlySorted(AppendedIds(stamps)) <==> forall s :: Count(stamps, s) <= 9
  {
    var ids := AppendedIds(stamps);
    if forall s :: Count(stamps, s) <= 9 {
      forall i, j | 0 <= i < j < |ids|
        ensures Before(ids[i], ids[j])
      {
        AppendedId(stamps, i);
        AppendedId(stamps, j);
        var a, b := Rank(stamps, i), Rank(stamps, j);
        if stamps[i] == stamps[j] {
          RankGrows(stamps, i, j);
          SingleDigits(a, b);
          BeforeSamePrefix(stamps[i], Tail(a), Tail(b));
        } else {
          BeforeByPrefix(stamps[i], stamps[j], Tail(a), Tail(b));
        }
      }
    } else {
      var s :| Count(stamps, s) > 9;
      var i := UseOfRank(stamps, s, 2);
      var j := UseOfRank(stamps, s, 10);
      if j < i { RankGrows(stamps, j, i); }
      AppendedId(stamps, i);
      AppendedId(stamps, j);
      TenBeforeTwo();
      BeforeSamePrefix(s, Tail(10), Tail(2));
      if Before(ids[i], ids[j]) {
        BeforeTransitive(ids[i], ids[j], ids[i]);
        BeforeIrreflexive(ids[i]);
      }
    }
  }

  // ---- Sorting ----

  /** Strictly sorted listings of one set are equal. */
  lemma {:induction false} SortedUnique(a: seq<string>, b: seq<string>)
    requires StrictlySorted(a) && StrictlySorted(b) && Elements(a) == Elements(b)
    ensures a == b
  {
    assert b != [] ==> b[0] in Elements(b);
    if a != [] {
      assert a[0] in Elements(a) && a[0] in b;
      assert b[0] in Elements(b) && b[0] in a;
      SameHead(a, b);
      var x := a[0];
      assert Elements(a[1..]) == Elements(a) - {x} by { TailElements(a); }
      assert Elements(b[1..]) == Elements(b) - {x} by { TailElements(b); }
      SortedUnique(a[1..], b[1..]);
      assert a == [x] + a[1..] && b == [x] + b[1..];
    }
  }

  lemma {:induction false} SameHead(a: seq<string>, b: seq<string>)
    requires StrictlySorted(a) && StrictlySorted(b) && a != [] && b != [] && a[0] in b && b[0] in a
    ensures a[0] == b[0]
  {
    if a[0] != b[0] {
      var i :| 0 <= i < |b| && b[i] == a[0];
      var j :| 0 <= j < |a| && a[j] == b[0];
      assert Before(b[0], a[0]) && Before(a[0], b[0]);
      BeforeTransitive(a[0], b[0], a[0]);
      BeforeIrreflexive(a[0]);
    }
  }

  lemma {:induction false} TailElements(a: seq<string>)
    requires StrictlySorted(a) && a != []
    ensures Elements(a[1..]) == Elements(a) - {a[0]}
  {
    BeforeIrreflexive(a[0]);
    assert forall i :: 0 < i < |a| ==> a[i] != a[0] && a[i] in a[1..];
  }

  /** `sorted` on a set of ids: insertion into a sorted list. */
  method SortIds(ids: set<string>) returns (r: seq<string>)
    ensures StrictlySorted(r) && Elements(r) == ids
  {
    r := [];
    var rest := ids;
    while rest != {}
      invariant StrictlySorted(r) && rest <= ids && Elements(r) == ids - rest
      decreases rest
    {
      var x :| x in rest;
      var i := 0;
      while i < |r| && Before(r[i], x)
        invariant 0 <= i <= |r|
        invariant forall j :: 0 <= j < i ==> Before(r[j], x)
      {
        i := i + 1;
      }
      InsertSorted(r, x, i);
      r := r[..i] + [x] + r[i..];
      rest := rest - {x};
    }
  }

  lemma {:induction false} InsertSorted(r: seq<string>, x: string, i: nat)
    requires StrictlySorted(r) && x !in r && i <= |r|
    requires forall j :: 0 <= j < i ==> Before(r[j], x)
    requires i < |r| ==> !Before(r[i], x)
    ensures StrictlySorted(r[..i] + [x] + r[i..])
    ensures Elements(r[..i] + [x] + r[i..]) == Elements(r) + {x}
  {
    var s := r[..i] + [x] + r[i..];
    forall j | i <= j < |r|
      ensures Before(x, r[j])
    {
      BeforeTotal(x, r[i]);
      if i < j { BeforeTransitive(x, r[i], r[j]); }
    }
    forall y | y in r
      ensures y in s
    {
      var j :| 0 <= j < |r| && r[j] == y;
      assert s[if j < i then j else j + 1] == y;
    }
  }
}
