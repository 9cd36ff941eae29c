/** Stale-host detection against the snapshot history. */
module Stale {
  import opened KeyedLists
  import opened Model
  import opened Repository
  import opened Runs
  import opened Snapshots
  import opened Sorting

  datatype StaleHost = StaleHost(host: Host, missedScans: int)

  function StaleLabel(s: StaleHost): string {
    HostLabel(s.host)
  }

  predicate Sees(snapshot: Inv, id: string) {
    HasKey(snapshot.hosts, EntryKey<Host>, id)
  }

  /** Enough history, and none of the last `scans` snapshots sees `id`. */
  ghost predicate IsStale(snapshots: seq<Inv>, scans: int, id: string) {
    && 1 <= scans <= |snapshots|
    && forall i :: |snapshots| - scans <= i < |snapshots| ==> !Sees(snapshots[i], id)
  }

  /** The stale ones of `hosts`, each reported as having missed `scans` snapshots. */
  ghost function StaleOnes(hosts: seq<Host>, snapshots: seq<Inv>, scans: int): seq<StaleHost> {
    if hosts == [] then []
    else
      var n := |hosts| - 1;
      StaleOnes(hosts[..n], snapshots, scans) +
      if IsStale(snapshots, scans, hosts[n].id) then [StaleHost(hosts[n], scans)] else []
  }

  method StaleHosts(inventory: Inv, snapshots: seq<Inv>, scans: int) returns (out: seq<StaleHost>)
    ensures multiset(out) == multiset(StaleOnes(Values(inventory.hosts), snapshots, scans))
    ensures SortedBy(out, StaleLabel)
    ensures forall s :: s in out <==>
              && s.missedScans == scans && 1 <= scans <= |snapshots|
              && (exists i :: 0 <= i < |inventory.hosts| && inventory.hosts[i].value == s.host)
              && forall j :: |snapshots| - scans <= j < |snapshots| ==> s.host.id !in Ids(snapshots[j].hosts)
  {
    hide StaleOnes, IsStale;
    var hosts := Values(inventory.hosts);
    if scans < 1 || |snapshots| < scans {
      NothingStale(hosts, snapshots, scans);
      StaleListIs(inventory, snapshots, scans, []);
      return [];
    }
    var recent := snapshots[|snapshots| - scans..];
    var seenRecently := SeenIn(recent);
    forall k
      ensures IsStale(snapshots, scans, k) <==> k !in seenRecently
    {
      StaleMeansUnseen(snapshots, scans, k);
    }
    out := Unseen(hosts, seenRecently, |recent|, snapshots, scans);
    out := SortBy(out, StaleLabel);
    StaleListIs(inventory, snapshots, scans, out);
  }

  method SeenIn(recent: seq<Inv>) returns (seenRecently: set<string>)
    ensures forall k :: k in seenRecently <==> exists j :: 0 <= j < |recent| && Sees(recent[j], k)
  {
    seenRecently := {};
    for i := 0 to |recent|
      invariant forall k :: k in seenRecently <==> exists j :: 0 <= j < i && Sees(recent[j], k)
    {
      seenRecently := seenRecently + Ids(recent[i].hosts);
    }
  }

  method Unseen(hosts: seq<Host>, seenRecently: set<string>, missed: int, ghost snapshots: seq<Inv>, ghost scans: int)
      returns (out: seq<StaleHost>)
    requires missed == scans && forall k :: IsStale(snapshots, scans, k) <==> k !in seenRecently
    ensures out == StaleOnes(hosts, snapshots, scans)
  {
    hide IsStale;
    out := [];
    assert hosts[..0] == [];
    for i := 0 to |hosts|
      invariant out == StaleOnes(hosts[..i], snapshots, scans)
    {
      assert hosts[..i + 1][..i] == hosts[..i];
      if hosts[i].id !in seenRecently {
        out := out + [StaleHost(hosts[i], missed)];
      }
    }
    assert hosts[..|hosts|] == hosts;
  }

  lemma {:induction false} StaleListIs(inventory: Inv, snapshots: seq<Inv>, scans: int, out: seq<StaleHost>)
    requires multiset(out) == multiset(StaleOnes(Values(inventory.hosts), snapshots, scans))
    ensures forall s :: s in out <==>
              && s.missedScans == scans && 1 <= scans <= |snapshots|
              && (exists i :: 0 <= i < |inventory.hosts| && inventory.hosts[i].value == s.host)
              && forall j :: |snapshots| - scans <= j < |snapshots| ==> s.host.id !in Ids(snapshots[j].hosts)
  {
    hide StaleOnes;
    var hosts := Values(inventory.hosts);
    forall s
      ensures s in out <==> s.missedScans == scans && s.host in hosts && IsStale(snapshots, scans, s.host.id)
    {
      InStaleOnes(hosts, snapshots, scans, s);
      assert s in out <==> s in multiset(out);
      assert s in StaleOnes(hosts, snapshots, scans) <==> s in multiset(StaleOnes(hosts, snapshots, scans));
    }
  }

  lemma {:induction false} InStaleOnes(hosts: seq<Host>, snapshots: seq<Inv>, scans: int, s: StaleHost)
    ensures s in StaleOnes(hosts, snapshots, scans) <==>
            s.missedScans == scans && s.host in hosts && IsStale(snapshots, scans, s.host.id)
  {
    hide IsStale;
    if hosts != [] {
      var n := |hosts| - 1;
      InStaleOnes(hosts[..n], snapshots, scans, s);
      assert hosts == hosts[..n] + [hosts[n]];
    }
  }

  lemma {:induction false} StaleMeansUnseen(snapshots: seq<Inv>, scans: int, id: string)
    requires 1 <= scans <= |snapshots|
    ensures var recent := snapshots[|snapshots| - scans..];
            IsStale(snapshots, scans, id) <==> !exists j :: 0 <= j < |recent| && Sees(recent[j], id)
  {
    var first := |snapshots| - scans;
    var recent := snapshots[first..];
    forall i | first <= i < |snapshots|
      ensures recent[i - first] == snapshots[i]
    {
    }
  }

  lemma {:induction false} NothingStale(hosts: seq<Host>, snapshots: seq<Inv>, scans: int)
    requires scans < 1 || |snapshots| < scans
    ensures StaleOnes(hosts, snapshots, scans) == []
  {
    if hosts != [] {
      NothingStale(hosts[..|hosts| - 1], snapshots, scans);
    }
  }

  // ---- Against the index of the last sighting ----

  /** The number of the last snapshot that saw `id`, counted from 1; 0 when none did. */
  function LastSighting(snapshots: seq<Inv>, id: string): (i: nat)
    ensures i <= |snapshots|
    ensures i > 0 ==> Sees(snapshots[i - 1], id)
    ensures forall j :: i <= j < |snapshots| ==> !Sees(snapshots[j], id)
  {
    var n := |snapshots|;
    if n == 0 then 0 else if Sees(snapshots[n - 1], id) then n else LastSighting(snapshots[..n - 1], id)
  }

  /** Stale for N means: N lies within the history and the last sighting is at least N scans old. */
  lemma {:induction false} StaleIffLastSightingOld(snapshots: seq<Inv>, scans: int, id: string)
    ensures IsStale(snapshots, scans, id) <==>
            1 <= scans <= |snapshots| && |snapshots| - LastSighting(snapshots, id) >= scans
  {
    var i := LastSighting(snapshots, id);
    if 1 <= scans <= |snapshots| && |snapshots| - i < scans {
      assert Sees(snapshots[i - 1], id);
    }
  }

  /** A longer memory within the history never makes more hosts stale. */
  lemma {:induction false} StaleShrinks(snapshots: seq<Inv>, fewer: int, more: int, id: string)
    requires 1 <= fewer <= more && IsStale(snapshots, more, id)
    ensures IsStale(snapshots, fewer, id)
  {
    StaleIffLastSightingOld(snapshots, fewer, id);
    StaleIffLastSightingOld(snapshots, more, id);
  }

  /** Nothing the newest snapshot saw is stale. */
  lemma {:induction false} NewestIsFresh(snapshots: seq<Inv>, scans: int, id: string)
    requires snapshots != [] && Sees(snapshots[|snapshots| - 1], id)
    ensures !IsStale(snapshots, scans, id)
  {
    StaleIffLastSightingOld(snapshots, scans, id);
  }

  function SnapshotInvs(snapshots: seq<(string, Inv)>): (r: seq<Inv>)
    ensures |r| == |snapshots| && forall i :: 0 <= i < |r| ==> r[i] == snapshots[i].1
  {
    seq(|snapshots|, i requires 0 <= i < |snapshots| => snapshots[i].1)
  }

  lemma {:induction false} SeenIffSighted(scans: seq<Inv>, id: string)
    ensures id in SeenIds(scans) <==> LastSighting(scans, id) >= 1
  {
    if scans != [] {
      SeenIffSighted(scans[..|scans| - 1], id);
    }
  }

  /**
   * From scan to report: after any run of calls with orderly stamps, the stored hosts are those some scan sighted, and
   * one of them is stale for N exactly when its last sighting is at least N of the recorded scans old.
   */
  lemma {:induction false} StaleOverRuns(calls: seq<Call>, listed: seq<string>, scans: int, id: string, now: string)
    requires calls != [] && FiledScans(calls) && OrderlyStamps(Stamps(calls))
    requires StrictlySorted(listed) && Elements(listed) == Run(calls).history.Keys
    ensures LoadFrom(Run(calls), now).Ok? && LoadFrom(Run(calls), now).value.Some?
    ensures forall s :: s in listed ==> s in Run(calls).history
    ensures var snaps := ReadAll(Run(calls).history, listed, now);
            var last := LastSighting(Scanned(calls), id);
            && snaps.Ok?
            && (id in HostIds(LoadFrom(Run(calls), now).value.value) <==> 1 <= last <= |calls|)
            && (IsStale(SnapshotInvs(snaps.value), scans, id) <==> 1 <= scans <= |calls| && |calls| - last >= scans)
  {
    hide Run, LoadFrom, ReadAll, LastSighting, IsStale, HostIds, RawHistory;
    SnapshotsAreTheScansInOrder(calls, listed, now);
    StoredIdsAreTheUnion(calls, now);
    SeenIffSighted(Scanned(calls), id);
    RawHistoryScans(calls);
    StaleIffLastSightingOld(Scanned(calls), scans, id);
  }

  lemma RawHistoryScans(calls: seq<Call>)
    ensures SnapshotInvs(RawHistory(calls)) == Scanned(calls)
  {
  }
}
