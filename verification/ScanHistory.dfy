/** The cumulative inventory after any number of scans, record by record. */
module ScanHistory {
  import opened Flattening
  import opened HostMerge
  import opened Inventories
  import opened InventoryLaws
  import opened Json
  import opened KeyedLists
  import opened Model
  import opened OrderedSets
  import opened Wrappers

  /** The repository's fold: the first scan is kept as it is, each later one is merged in with its own clock. */
  function Cumulative(scans: seq<Inv>, clocks: nat -> nat -> string): Inv
    requires scans != []
  {
    var n := |scans| - 1;
    if n == 0 then scans[0] else MergeInv(Cumulative(scans[..n], clocks), scans[n], clocks(n))
  }

  ghost predicate AllWellFormed(scans: seq<Inv>) {
    forall i :: 0 <= i < |scans| ==> WellFormed(scans[i])
  }

  lemma {:induction false} CumulativeSound(scans: seq<Inv>, clocks: nat -> nat -> string)
    requires scans != [] && AllSound(scans)
    ensures Sound(Cumulative(scans, clocks))
  {
    var n := |scans| - 1;
    if n != 0 {
      CumulativeSound(scans[..n], clocks);
      MergeSound(Cumulative(scans[..n], clocks), scans[n], clocks(n));
    }
  }

  // ---- One merge, record by record ----

  lemma {:induction false} UpsertHostGet(d: seq<Entry<Host>>, h: Host, now: string, k: string)
    ensures Get(UpsertHost(d, h, now), EntryKey<Host>, k) ==
            if k != h.id then Get(d, EntryKey<Host>, k)
            else if HasKey(d, EntryKey<Host>, k)
              then Some(Entry(k, MergeHost(Get(d, EntryKey<Host>, k).value.value, h, now)))
            else Some(Entry(k, Stamped(h, now)))
  {
    var f, i := Find(d, EntryKey<Host>, k), Find(d, EntryKey<Host>, h.id);
    FindIs(UpsertHost(d, h, now), EntryKey<Host>, k, if i == |d| && f == |d| && k != h.id then |d| + 1 else f);
  }

  /** The record of one id after a merge: untouched, merged, or stamped and inserted. */
  lemma {:induction false} UpsertHostsGet(d: seq<Entry<Host>>, more: seq<Entry<Host>>, clock: nat -> string, k: string)
    requires IsDict(more) && forall e :: e in more ==> e.key == e.value.id
    ensures var i := Find(more, EntryKey<Host>, k);
            Get(UpsertHosts(d, Values(more), clock), EntryKey<Host>, k) ==
            if i == |more| then Get(d, EntryKey<Host>, k)
            else if HasKey(d, EntryKey<Host>, k)
              then Some(Entry(k, MergeHost(Get(d, EntryKey<Host>, k).value.value, more[i].value, clock(i))))
            else Some(Entry(k, Stamped(more[i].value, clock(i))))
  {
    if more != [] {
      var n := |more| - 1;
      var front := more[..n];
      assert Values(more)[..n] == Values(front);
      UpsertHostsGet(d, front, clock, k);
      UpsertHostGet(UpsertHosts(d, Values(front), clock), more[n].value, clock(n), k);
      FindFront(more, EntryKey<Host>, k);
      if more[n].key == k {
        FindDistinct(more, EntryKey<Host>, n);
      }
    }
  }

  function HostKeys(inv: Inv): seq<string> { KeysOf(inv.hosts, EntryKey<Host>) }
  function VmItems(inv: Inv): seq<Entry<Vm>> { inv.vms }
  function NetworkList(inv: Inv): seq<Net> { inv.networks }

  lemma {:induction false} UpsertHostsKeys(d: seq<Entry<Host>>, more: seq<Entry<Host>>, clock: nat -> string)
    requires IsDict(d) && forall e :: e in more ==> e.key == e.value.id
    ensures KeysOf(UpsertHosts(d, Values(more), clock), EntryKey<Host>) ==
            Union(KeysOf(d, EntryKey<Host>), KeysOf(more, EntryKey<Host>))
  {
    UpsertHostsTimeless(d, more, clock);
    CombineHostsLaws();
    var td, tm := TimelessHosts(d), TimelessHosts(more);
    UpsertAllKeys(td, tm, EntryKey<Host>, CombineHosts);
    assert KeysOf(td, EntryKey<Host>) == KeysOf(d, EntryKey<Host>);
    assert KeysOf(tm, EntryKey<Host>) == KeysOf(more, EntryKey<Host>);
    var r := UpsertHosts(d, Values(more), clock);
    assert KeysOf(TimelessHosts(r), EntryKey<Host>) == KeysOf(r, EntryKey<Host>);
  }

  lemma {:induction false} MergeHostKeys(c: Inv, x: Inv, clock: nat -> string)
    requires IsDict(c.hosts) && WellFormed(x)
    ensures HostKeys(MergeInv(c, x, clock)) == Union(HostKeys(c), HostKeys(x))
  {
    UpsertHostsKeys(c.hosts, x.hosts, clock);
  }

  lemma {:induction false} MergeVmGet(c: Inv, x: Inv, clock: nat -> string, k: string)
    requires WellFormed(x)
    ensures Get(MergeInv(c, x, clock).vms, EntryKey<Vm>, k) ==
            if HasKey(x.vms, EntryKey<Vm>, k) then Get(x.vms, EntryKey<Vm>, k) else Get(c.vms, EntryKey<Vm>, k)
  {
    LastOfDict(x.vms, k);
    UpsertVmsIsPutAll(c.vms, x.vms);
    PutAllGet(c.vms, x.vms, EntryKey<Vm>, k);
  }

  lemma {:induction false} MergeHostGet(c: Inv, x: Inv, clock: nat -> string, k: string)
    requires WellFormed(x)
    ensures var i := Find(x.hosts, EntryKey<Host>, k);
            Get(MergeInv(c, x, clock).hosts, EntryKey<Host>, k) ==
            if i == |x.hosts| then Get(c.hosts, EntryKey<Host>, k)
            else if HasKey(c.hosts, EntryKey<Host>, k)
              then Some(Entry(k, MergeHost(Get(c.hosts, EntryKey<Host>, k).value.value, x.hosts[i].value, clock(i))))
            else Some(Entry(k, Stamped(x.hosts[i].value, clock(i))))
  {
    UpsertHostsGet(c.hosts, x.hosts, clock, k);
  }

  // ---- All scans ----

  lemma {:induction false} KeysNoDup<V>(d: seq<Entry<V>>)
    ensures NoDup(KeysOf(d, EntryKey<V>)) <==> IsDict(d)
  {
    var ks := KeysOf(d, EntryKey<V>);
    assert forall i :: 0 <= i < |d| ==> EntryKey(d[i]) == ks[i];
  }

  lemma {:induction false} OneScanIds(scans: seq<Inv>)
    requires |scans| == 1 && WellFormed(scans[0])
    ensures HostKeys(scans[0]) == Dedupe(FlatMap(scans, HostKeys)) && IsDict(scans[0].hosts)
  {
    hide Dedupe;
    FlatMapOne(scans, HostKeys);
    KeysNoDup(scans[0].hosts);
    DedupeNoDup(HostKeys(scans[0]));
  }

  /** The ids of the cumulative inventory, in order of first appearance over all scans: nothing is ever dropped. */
  lemma {:induction false} CumulativeHostIds(scans: seq<Inv>, clocks: nat -> nat -> string)
    requires scans != [] && AllWellFormed(scans)
    ensures HostKeys(Cumulative(scans, clocks)) == Dedupe(FlatMap(scans, HostKeys))
    ensures IsDict(Cumulative(scans, clocks).hosts)
  {
    hide Dedupe, MergeInv;
    var n := |scans| - 1;
    if n == 0 {
      OneScanIds(scans);
    } else {
      CumulativeHostIds(scans[..n], clocks);
      MergeHostKeys(Cumulative(scans[..n], clocks), scans[n], clocks(n));
      DedupeLeft(FlatMap(scans[..n], HostKeys), HostKeys(scans[n]));
      DedupedIsDict(Cumulative(scans, clocks), FlatMap(scans, HostKeys));
    }
  }

  lemma {:induction false} DedupedIsDict(inv: Inv, keys: seq<string>)
    requires HostKeys(inv) == Dedupe(keys)
    ensures IsDict(inv.hosts)
  {
    DedupeElements(keys);
    KeysNoDup(inv.hosts);
  }

  /** Every VM is the last version scanned. */
  lemma {:induction false} CumulativeVms(scans: seq<Inv>, clocks: nat -> nat -> string, k: string)
    requires scans != [] && AllWellFormed(scans)
    ensures Get(Cumulative(scans, clocks).vms, EntryKey<Vm>, k) == Last(FlatMap(scans, VmItems), EntryKey<Vm>, k)
  {
    var n := |scans| - 1;
    if n == 0 {
      FlatMapOne(scans, VmItems);
      LastOfDict(scans[0].vms, k);
    } else {
      var front, x, clock := scans[..n], scans[n], clocks(n);
      CumulativeVms(front, clocks, k);
      MergeVmLast(Cumulative(front, clocks), FlatMap(front, VmItems), x, clock, k);
    }
  }

  lemma {:induction false} MergeVmLast(c: Inv, seen: seq<Entry<Vm>>, x: Inv, clock: nat -> string, k: string)
    requires WellFormed(x) && Get(c.vms, EntryKey<Vm>, k) == Last(seen, EntryKey<Vm>, k)
    ensures Get(MergeInv(c, x, clock).vms, EntryKey<Vm>, k) == Last(seen + x.vms, EntryKey<Vm>, k)
  {
    LastOfDict(x.vms, k);
    LastConcat(seen, x.vms, EntryKey<Vm>, k);
    MergeVmGet(c, x, clock, k);
  }

  lemma {:induction false} LastOfDict<V>(d: seq<Entry<V>>, k: string)
    requires IsDict(d)
    ensures Last(d, EntryKey<V>, k) == Get(d, EntryKey<V>, k)
  {
    LastSome(d, EntryKey<V>, k);
    if HasKey(d, EntryKey<V>, k) {
      LastIs(d, EntryKey<V>, k, Find(d, EntryKey<V>, k));
    }
  }

  /** Every network is the first one scanned under its cidr. */
  lemma {:induction false} CumulativeNetworks(scans: seq<Inv>, clocks: nat -> nat -> string, cidr: string)
    requires scans != []
    ensures Get(Cumulative(scans, clocks).networks, NetCidr, cidr) == Get(FlatMap(scans, NetworkList), NetCidr, cidr)
  {
    var n := |scans| - 1;
    if n == 0 {
      FlatMapOne(scans, NetworkList);
    } else {
      CumulativeNetworks(scans[..n], clocks, cidr);
      GetConcat(FlatMap(scans[..n], NetworkList), scans[n].networks, cidr);
      AddNetworksGet(Cumulative(scans[..n], clocks).networks, scans[n].networks, cidr);
    }
  }

  lemma {:induction false} GetConcat(a: seq<Net>, b: seq<Net>, cidr: string)
    ensures Get(a + b, NetCidr, cidr) ==
            if HasKey(a, NetCidr, cidr) then Get(a, NetCidr, cidr) else Get(b, NetCidr, cidr)
  {
    var i, j := Find(a, NetCidr, cidr), Find(b, NetCidr, cidr);
    FindIs(a + b, NetCidr, cidr, if i < |a| then i else |a| + j);
  }

  lemma {:induction false} AddNetworksGet(a: seq<Net>, b: seq<Net>, cidr: string)
    ensures Get(AddNetworks(a, b), NetCidr, cidr) ==
            if HasKey(a, NetCidr, cidr) then Get(a, NetCidr, cidr) else Get(b, NetCidr, cidr)
  {
    if b != [] {
      var n := |b| - 1;
      AddNetworksGet(a, b[..n], cidr);
      UpsertGet(AddNetworks(a, b[..n]), b[n], NetCidr, TakeOld, cidr);
      FindFront(b, NetCidr, cidr);
    }
  }

  /** The record of host `k` in one scan, if any. */
  function SightingIn(scan: Inv, k: string): seq<Host> {
    var i := Find(scan.hosts, EntryKey<Host>, k);
    if i < |scan.hosts| then [scan.hosts[i].value] else []
  }

  /** The records of host `k`, scan after scan. */
  function Sightings(scans: seq<Inv>, k: string): seq<Host> {
    if scans == [] then [] else Sightings(scans[..|scans| - 1], k) + SightingIn(scans[|scans| - 1], k)
  }

  /** What the clock read when each of those sightings was merged in. */
  function SightingTimes(scans: seq<Inv>, clocks: nat -> nat -> string, k: string): (times: seq<string>)
    ensures |times| == |Sightings(scans, k)|
  {
    if scans == [] then []
    else
      var n := |scans| - 1;
      var i := Find(scans[n].hosts, EntryKey<Host>, k);
      SightingTimes(scans[..n], clocks, k) + if i < |scans[n].hosts| then [clocks(n)(i)] else []
  }

  /** A host as it enters: stamped, unless it came with the very first scan. */
  function Entered(h: Host, inFirst: bool, now: string): Host {
    if inFirst then h else Stamped(h, now)
  }

  /** The clock of the merges after the first sighting. */
  function Later(times: seq<string>): nat -> string {
    (j: nat) => if j + 1 < |times| then times[j + 1] else ""
  }

  predicate InFirstScan(scans: seq<Inv>, k: string)
    requires scans != []
  {
    HasKey(scans[0].hosts, EntryKey<Host>, k)
  }

  lemma {:induction false} SameReadings(first: Host, later: seq<Host>, c1: nat -> string, c2: nat -> string)
    requires forall i: nat :: i < |later| ==> c1(i) == c2(i)
    ensures MergeSightings(first, later, c1) == MergeSightings(first, later, c2)
  {
    if later != [] {
      SameReadings(first, later[..|later| - 1], c1, c2);
    }
  }

  /** The record of a host sighted as `s` at `times`, in order. */
  function RecordOf(s: seq<Host>, times: seq<string>, inFirst: bool, k: string): Option<Entry<Host>>
    requires |times| == |s|
  {
    if s == [] then None
    else Some(Entry(k, MergeSightings(Entered(s[0], inFirst, times[0]), s[1..], Later(times))))
  }

  /**
   * The cumulative record of host `k` is its first sighting with every later sighting merged in, in order and each at
   * the time its own scan was merged: no scan is skipped, repeated or reordered.
   */
  lemma {:induction false} CumulativeHost(scans: seq<Inv>, clocks: nat -> nat -> string, k: string)
    requires scans != [] && AllWellFormed(scans)
    ensures Get(Cumulative(scans, clocks).hosts, EntryKey<Host>, k) ==
            RecordOf(Sightings(scans, k), SightingTimes(scans, clocks, k), InFirstScan(scans, k), k)
  {
    hide RecordOf, MergeInv, WellFormed;
    var n := |scans| - 1;
    if n == 0 {
      FirstSighting(scans, clocks, k);
    } else {
      var front := scans[..n];
      var seen, times := Sightings(front, k), SightingTimes(front, clocks, k);
      CumulativeHost(front, clocks, k);
      LaterUnlessSighted(front, clocks, k);
      assert seen + [] == seen && times + [] == times && front[0] == scans[0];
      MergeSighting(Cumulative(front, clocks), seen, times, InFirstScan(front, k), scans[n], clocks(n), k);
    }
  }

  /** A host not sighted yet was not in the first scan. */
  lemma {:induction false} LaterUnlessSighted(scans: seq<Inv>, clocks: nat -> nat -> string, k: string)
    requires scans != []
    ensures Sightings(scans, k) == [] ==> !InFirstScan(scans, k)
  {
    if |scans| > 1 {
      LaterUnlessSighted(scans[..|scans| - 1], clocks, k);
    } else {
      assert Sightings(scans[..0], k) == [];
    }
  }

  lemma {:induction false} FirstSighting(scans: seq<Inv>, clocks: nat -> nat -> string, k: string)
    requires |scans| == 1
    ensures Get(scans[0].hosts, EntryKey<Host>, k) ==
            RecordOf(Sightings(scans, k), SightingTimes(scans, clocks, k), InFirstScan(scans, k), k)
  {
    assert Sightings(scans[..0], k) == [];
  }

  lemma {:induction false} MergeSighting(
      c: Inv, seen: seq<Host>, times: seq<string>, inFirst: bool, x: Inv, clock: nat -> string, k: string)
    requires WellFormed(x) && |times| == |seen| && (seen == [] ==> !inFirst)
    requires Get(c.hosts, EntryKey<Host>, k) == RecordOf(seen, times, inFirst, k)
    ensures var i := Find(x.hosts, EntryKey<Host>, k);
            Get(MergeInv(c, x, clock).hosts, EntryKey<Host>, k) ==
            if i == |x.hosts| then RecordOf(seen, times, inFirst, k)
            else RecordOf(seen + [x.hosts[i].value], times + [clock(i)], inFirst, k)
  {
    hide MergeInv, MergeHost, WellFormed;
    MergeHostGet(c, x, clock, k);
    var i := Find(x.hosts, EntryKey<Host>, k);
    if i < |x.hosts| {
      var h, now := x.hosts[i].value, clock(i);
      if seen != [] {
        var first, later := Entered(seen[0], inFirst, times[0]), seen[1..];
        assert (seen + [h])[1..] == later + [h];
        LaterSighting(first, later, Later(times), Later(times + [now]), h);
      }
    }
  }

  lemma {:induction false} LaterSighting(
      first: Host, later: seq<Host>, readings: nat -> string, extended: nat -> string, x: Host)
    requires forall j: nat :: j < |later| ==> readings(j) == extended(j)
    ensures MergeSightings(first, later + [x], extended) ==
            MergeHost(MergeSightings(first, later, readings), x, extended(|later|))
  {
    hide MergeHost;
    assert (later + [x])[..|later|] == later;
    SameReadings(first, later, readings, extended);
  }

  // ---- Field by field ----

  /** The record of a sighted host and the sightings it is merged from, the first one as it entered. */
  lemma {:induction false} CumulativeRecord(scans: seq<Inv>, clocks: nat -> nat -> string, k: string)
      returns (r: Host, first: Host, later: seq<Host>)
    requires scans != [] && AllWellFormed(scans) && Sightings(scans, k) != []
    ensures Get(Cumulative(scans, clocks).hosts, EntryKey<Host>, k) == Some(Entry(k, r))
    ensures var s, times := Sightings(scans, k), SightingTimes(scans, clocks, k);
            && first == Entered(s[0], InFirstScan(scans, k), times[0]) && later == s[1..]
            && r == MergeSightings(first, later, Later(times))
  {
    hide MergeSightings, Cumulative, Entered;
    CumulativeHost(scans, clocks, k);
    var s, times := Sightings(scans, k), SightingTimes(scans, clocks, k);
    first, later := Entered(s[0], InFirstScan(scans, k), times[0]), s[1..];
    r := MergeSightings(first, later, Later(times));
  }

  /** Every scalar kept for `k` is the last non-empty one any scan reported. */
  lemma {:induction false} CumulativeScalars(scans: seq<Inv>, clocks: nat -> nat -> string, k: string)
    requires scans != [] && AllWellFormed(scans) && Sightings(scans, k) != []
    ensures var s, r := Sightings(scans, k), Get(Cumulative(scans, clocks).hosts, EntryKey<Host>, k);
            r.Some? && HasLastScalars(r.value.value, s)
  {
    hide Cumulative, Sightings, MergeSightings, Entered;
    var r, first, later := CumulativeRecord(scans, clocks, k);
    var s := Sightings(scans, k);
    assert s == [s[0]] + later;
    SightingsScalars(first, later, Later(SightingTimes(scans, clocks, k)));
    EnteredKeeps(s[0], InFirstScan(scans, k), SightingTimes(scans, clocks, k)[0]);
    LastScalars(r, first, s[0], later);
  }

  /** Each scalar of `r` is that of the last of `s` that has one. */
  ghost predicate HasLastScalars(r: Host, s: seq<Host>)
    requires s != []
  {
    && r.hostname == s[LastWhere(s, HasHostname)].hostname
    && r.mac == s[LastWhere(s, HasMac)].mac
    && r.os == s[LastWhere(s, HasOs)].os
    && r.hypervisorId == s[LastWhere(s, HasHypervisor)].hypervisorId
    && r.role == s[LastWhere(s, HasRole)].role
    && r.packages == s[LastWhere(s, HasPackages)].packages
    && r.processes == s[LastWhere(s, HasProcesses)].processes
    && r.containers == s[LastWhere(s, HasContainers)].containers
  }

  /** Entering only writes stamps. */
  lemma {:induction false} EnteredKeeps(h: Host, inFirst: bool, now: string)
    ensures var e := Entered(h, inFirst, now); e == h.(firstSeen := e.firstSeen, lastSeen := e.lastSeen)
  {
  }

  lemma {:induction false} LastScalars(r: Host, first: Host, h: Host, later: seq<Host>)
    requires first == h.(firstSeen := first.firstSeen, lastSeen := first.lastSeen)
    requires HasLastScalars(r, [first] + later)
    ensures HasLastScalars(r, [h] + later)
  {
    hide LastWhere;
    SameAtLast(first, h, later, HasHostname, (x: Host) => x.hostname);
    SameAtLast(first, h, later, HasMac, (x: Host) => x.mac);
    SameAtLast(first, h, later, HasOs, (x: Host) => x.os);
    SameAtLast(first, h, later, HasHypervisor, (x: Host) => x.hypervisorId);
    SameAtLast(first, h, later, HasRole, (x: Host) => x.role);
    SameAtLast(first, h, later, HasPackages, (x: Host) => x.packages);
    SameAtLast(first, h, later, HasProcesses, (x: Host) => x.processes);
    SameAtLast(first, h, later, HasContainers, (x: Host) => x.containers);
  }

  lemma {:induction false} SameAtLast<V>(first: Host, h: Host, later: seq<Host>, p: Host -> bool, f: Host -> V)
    requires f(first) == f(h)
    ensures var a, b := [first] + later, [h] + later;
            f(a[LastWhere(a, p)]) == f(b[LastWhere(b, p)])
  {
    SameLastWhere([first] + later, [h] + later, p);
  }

  /** Addresses, tags, hosted VMs and sources kept for `k` are the ordered unions over its sightings. */
  lemma {:induction false} CumulativeLists(scans: seq<Inv>, clocks: nat -> nat -> string, k: string)
    requires scans != [] && AllWellFormed(scans) && Sightings(scans, k) != []
    ensures var s, r := Sightings(scans, k), Get(Cumulative(scans, clocks).hosts, EntryKey<Host>, k);
            && r.Some?
            && r.value.value.addresses == ListedIn(s, AddressesOf)
            && r.value.value.tags == ListedIn(s, TagsOf)
            && r.value.value.hostedVmIds == ListedIn(s, HostedOf)
            && r.value.value.sources == ListedIn(s, SourcesOf)
  {
    hide Cumulative, Sightings, MergeSightings, Entered, ListedIn;
    var r, first, later := CumulativeRecord(scans, clocks, k);
    var s := Sightings(scans, k);
    assert s == [s[0]] + later;
    SightingsLists(first, later, Later(SightingTimes(scans, clocks, k)));
    EnteredKeeps(s[0], InFirstScan(scans, k), SightingTimes(scans, clocks, k)[0]);
    SameListed(first, s[0], later, AddressesOf);
    SameListed(first, s[0], later, TagsOf);
    SameListed(first, s[0], later, HostedOf);
    SameListed(first, s[0], later, SourcesOf);
  }

  /** If its first sighting repeats no service key, `k` keeps the last service and note per key, first key first. */
  lemma {:induction false} CumulativeServices(scans: seq<Inv>, clocks: nat -> nat -> string, k: string)
    requires scans != [] && AllWellFormed(scans) && Sightings(scans, k) != []
    requires DistinctServices(Sightings(scans, k)[0]) && IsDict(Sightings(scans, k)[0].extra)
    ensures var s, r := Sightings(scans, k), Get(Cumulative(scans, clocks).hosts, EntryKey<Host>, k);
            var services, notes := FlatMap(s, ServicesOf), FlatMap(s, ExtraOf);
            && r.Some?
            && DistinctServices(r.value.value) && IsDict(r.value.value.extra)
            && KeysOf(r.value.value.services, ServiceKey) == Dedupe(KeysOf(services, ServiceKey))
            && (forall key :: Get(r.value.value.services, ServiceKey, key) == Last(services, ServiceKey, key))
            && KeysOf(r.value.value.extra, EntryKey) == Dedupe(KeysOf(notes, EntryKey))
            && (forall key :: Get(r.value.value.extra, EntryKey, key) == Last(notes, EntryKey, key))
  {
    hide Cumulative, Sightings, MergeSightings, Entered, FlatMap, Dedupe, Last, Get;
    var r, first, later := CumulativeRecord(scans, clocks, k);
    var s := Sightings(scans, k);
    assert s == [s[0]] + later;
    EnteredKeeps(s[0], InFirstScan(scans, k), SightingTimes(scans, clocks, k)[0]);
    SightingsServices(first, later, Later(SightingTimes(scans, clocks, k)));
    FlatMapCons(first, later, ServicesOf);
    FlatMapCons(s[0], later, ServicesOf);
    FlatMapCons(first, later, ExtraOf);
    FlatMapCons(s[0], later, ExtraOf);
  }

  /**
   * Every protocol and port of `k` answers with the last service a later sighting listed for it, and with that of its
   * first sighting where no later one did: scanning one port never loses another.
   */
  lemma {:induction false} CumulativePorts(
      scans: seq<Inv>, clocks: nat -> nat -> string, k: string, protocol: string, port: int)
    requires scans != [] && AllWellFormed(scans) && Sightings(scans, k) != []
    ensures var s, r := Sightings(scans, k), Get(Cumulative(scans, clocks).hosts, EntryKey<Host>, k);
            var seen := FlatMap(s[1..], ServicesOf);
            && r.Some?
            && Get(r.value.value.services, PortOf, (protocol, port)) ==
               if exists i :: 0 <= i < |seen| && seen[i].protocol == protocol && seen[i].port == port
               then Last(seen, PortOf, (protocol, port))
               else Get(s[0].services, PortOf, (protocol, port))
  {
    hide Cumulative, Sightings, MergeSightings, Entered, FlatMap, Last, Get;
    var r, first, later := CumulativeRecord(scans, clocks, k);
    var s := Sightings(scans, k);
    EnteredKeeps(s[0], InFirstScan(scans, k), SightingTimes(scans, clocks, k)[0]);
    SightingsPorts(first, later, Later(SightingTimes(scans, clocks, k)), protocol, port);
  }

  /**
   * The stamps kept for `k`: `last_seen` is when its last scan was merged, and a host that joined later was first seen
   * when its first sighting says, or else when that sighting was merged.
   */
  lemma {:induction false} CumulativeStamps(scans: seq<Inv>, clocks: nat -> nat -> string, k: string)
    requires scans != [] && AllWellFormed(scans) && Sightings(scans, k) != []
    ensures var s, times := Sightings(scans, k), SightingTimes(scans, clocks, k);
            var r := Get(Cumulative(scans, clocks).hosts, EntryKey<Host>, k);
            && r.Some?
            && (|s| > 1 ==> r.value.value.lastSeen == Some(times[|s| - 1]))
            && (|s| == 1 && InFirstScan(scans, k) ==> r.value.value.lastSeen == s[0].lastSeen)
            && (InFirstScan(scans, k) ==> r.value.value.firstSeen == s[FirstWhere(s, HasFirstSeen)].firstSeen)
            && (!InFirstScan(scans, k) && times[0] != "" ==>
                  && r.value.value.firstSeen == OrElse(s[0].firstSeen, Some(times[0]))
                  && (|s| == 1 ==> r.value.value.lastSeen == OrElse(s[0].lastSeen, r.value.value.firstSeen)))
  {
    hide Cumulative, Sightings, MergeSightings, SightingTimes;
    var r, first, later := CumulativeRecord(scans, clocks, k);
    var s := Sightings(scans, k);
    assert s == [s[0]] + later;
    SightingsStamps(first, later, Later(SightingTimes(scans, clocks, k)));
    assert HasFirstSeen(first) ==> FirstWhere([first] + later, HasFirstSeen) == 0;
  }

  lemma {:induction false} SameListed<V>(a: Host, b: Host, later: seq<Host>, f: Host -> seq<V>)
    requires f(a) == f(b)
    ensures ListedIn([a] + later, f) == ListedIn([b] + later, f)
  {
    FlatMapCons(a, later, f);
    FlatMapCons(b, later, f);
    assert ([a] + later)[0] == a && ([b] + later)[0] == b;
  }

  lemma {:induction false} LastWhereIs<T(!new)>(xs: seq<T>, p: T -> bool, i: nat)
    requires i < |xs| && (i == 0 || p(xs[i]))
    requires forall j :: i < j < |xs| ==> !p(xs[j])
    ensures LastWhere(xs, p) == i
  {
    if i < |xs| - 1 {
      LastWhereIs(xs[..|xs| - 1], p, i);
    }
  }

  lemma {:induction false} SameLastWhere<T(!new)>(xs: seq<T>, ys: seq<T>, p: T -> bool)
    requires |xs| == |ys| > 0
    requires forall i :: 0 < i < |xs| ==> xs[i] == ys[i]
    ensures LastWhere(xs, p) == LastWhere(ys, p)
  {
    var i := LastWhere(xs, p);
    LastWhereIs(ys, p, i);
  }
}
