/** Field-level merging of two sightings of one host: `_merge_host`, `_union`, `add_service`. */
module HostMerge {
  import opened Flattening
  import opened Json
  import opened KeyedLists
  import opened Model
  import opened OrderedSets
  import opened Wrappers

  /** `setattr(target, attr, val)` only `if val`. */
  function Newer(old_: Option<string>, new_: Option<string>): Option<string> {
    if Truthy(new_) then new_ else old_
  }

  function NewerList<T>(old_: seq<T>, new_: seq<T>): seq<T> {
    if new_ != [] then new_ else old_
  }

  /** `Host.add_service` for each of `services`, in order. */
  function AddServices(services: seq<Service>, more: seq<Service>): seq<Service> {
    PutAll(services, more, ServiceKey)
  }

  /** `dict.update`. */
  function Updated<V>(d: seq<Entry<V>>, more: seq<Entry<V>>): seq<Entry<V>> {
    PutAll(d, more, EntryKey<V>)
  }

  /** The state `_merge_host(target, incoming)` leaves in `target` when the clock reads `now`. */
  function MergeHost(target: Host, incoming: Host, now: string): Host {
    target.(
      lastSeen := Some(now),
      firstSeen := OrElse(target.firstSeen, incoming.firstSeen),
      hostname := Newer(target.hostname, incoming.hostname),
      mac := Newer(target.mac, incoming.mac),
      os := Newer(target.os, incoming.os),
      hypervisorId := Newer(target.hypervisorId, incoming.hypervisorId),
      role := if incoming.role != Unknown then incoming.role else target.role,
      addresses := Union(target.addresses, incoming.addresses),
      tags := Union(target.tags, incoming.tags),
      hostedVmIds := Union(target.hostedVmIds, incoming.hostedVmIds),
      sources := Union(target.sources, incoming.sources),
      services := AddServices(target.services, incoming.services),
      packages := NewerList(target.packages, incoming.packages),
      processes := NewerList(target.processes, incoming.processes),
      containers := NewerList(target.containers, incoming.containers),
      extra := Updated(target.extra, incoming.extra))
  }

  /** A host with its last-seen stamp forgotten: merge laws hold up to that stamp. */
  function Unstamped(h: Host): Host {
    h.(lastSeen := None)
  }

  ghost predicate DistinctServices(h: Host) {
    Distinct(h.services, ServiceKey)
  }

  /** Some key of `c`'s services is repeated in `b`, and `b`'s last service of that key is another one. */
  ghost predicate ShadowedService(b: Host, c: Host) {
    exists k :: HasKey(c.services, ServiceKey, k) && Repeated(b.services, ServiceKey, k) &&
                Last(b.services, ServiceKey, k) != Last(c.services, ServiceKey, k)
  }

  /** Dict items have distinct keys, so updating dicts is associative. */
  lemma {:induction false} UpdatedAssociative<V(!new)>(a: seq<Entry<V>>, b: seq<Entry<V>>, c: seq<Entry<V>>)
    requires IsDict(b)
    ensures Updated(Updated(a, b), c) == Updated(a, Updated(b, c))
  {
    UpsertAllAssociative(a, b, c, EntryKey<V>, TakeNew<Entry<V>>, (x: Entry<V>) => true);
  }

  /**
   * Three sightings merge to the same host however they are grouped - exactly when the middle one does not
   * carry a repeated service key that the last one redefines. `extra` is a dict, so its keys are distinct.
   */
  lemma {:induction false} MergeHostAssociativeIff(
      a: Host, b: Host, c: Host, t1: string, t2: string, t3: string, t4: string)
    requires IsDict(b.extra)
    ensures Unstamped(MergeHost(MergeHost(a, b, t1), c, t2)) == Unstamped(MergeHost(a, MergeHost(b, c, t3), t4)) <==>
            !ShadowedService(b, c)
  {
    UnionAssociative(a.addresses, b.addresses, c.addresses);
    UnionAssociative(a.tags, b.tags, c.tags);
    UnionAssociative(a.hostedVmIds, b.hostedVmIds, c.hostedVmIds);
    UnionAssociative(a.sources, b.sources, c.sources);
    UpdatedAssociative(a.extra, b.extra, c.extra);
    PutAllAssociativeIff(a.services, b.services, c.services, ServiceKey);
  }

  /** A host with nothing but services. */
  function Serving(services: seq<Service>): Host {
    Host("ip:10.0.0.1", [], None, None, Unknown, None, services, [], [], [], [], [], None, [], None, None, [])
  }

  function Ssh(version: string): Service {
    Service(22, "tcp", Some("ssh"), None, Some(version), "open", None, None, [])
  }

  /** Three sightings whose grouping matters: the middle one lists port 22 twice, the last one redefines it. */
  lemma {:induction false} GroupingCanMatter(t1: string, t2: string, t3: string, t4: string)
    ensures var a, b, c := Serving([]), Serving([Ssh("1"), Ssh("2")]), Serving([Ssh("3")]);
            Unstamped(MergeHost(MergeHost(a, b, t1), c, t2)) != Unstamped(MergeHost(a, MergeHost(b, c, t3), t4))
  {
    hide MergeHost, ServiceKey;
    var a, b, c := Serving([]), Serving([Ssh("1"), Ssh("2")]), Serving([Ssh("3")]);
    SameSshKey();
    var k := ServiceKey(Ssh("1"));
    LastIs(b.services, ServiceKey, k, 1);
    LastIs(c.services, ServiceKey, k, 0);
    HasKeyAt(c.services, ServiceKey, 0);
    assert "2"[0] != "3"[0];
    assert ServiceKey(b.services[0]) == k && ServiceKey(b.services[1]) == k && ServiceKey(c.services[0]) == k;
    assert Repeated(b.services, ServiceKey, k);
    assert ShadowedService(b, c);
    MergeHostAssociativeIff(a, b, c, t1, t2, t3, t4);
  }

  lemma {:induction false} SameSshKey()
    ensures forall u, v :: ServiceKey(Ssh(u)) == ServiceKey(Ssh(v))
  {
  }

  /** With distinct service keys the grouping never matters. */
  lemma {:induction false} MergeHostAssociative(
      a: Host, b: Host, c: Host, t1: string, t2: string, t3: string, t4: string)
    requires IsDict(b.extra) && DistinctServices(b)
    ensures Unstamped(MergeHost(MergeHost(a, b, t1), c, t2)) == Unstamped(MergeHost(a, MergeHost(b, c, t3), t4))
  {
    MergeHostAssociativeIff(a, b, c, t1, t2, t3, t4);
  }

  /** A second merge of the same sighting only moves the last-seen stamp. */
  lemma {:induction false} MergeHostIdempotent(a: Host, b: Host, t1: string, t2: string)
    ensures MergeHost(MergeHost(a, b, t1), b, t2) == MergeHost(a, b, t1).(lastSeen := Some(t2))
  {
    UnionAbsorbs(a.addresses, b.addresses);
    UnionAbsorbs(a.tags, b.tags);
    UnionAbsorbs(a.hostedVmIds, b.hostedVmIds);
    UnionAbsorbs(a.sources, b.sources);
    PutAllIdempotent(a.services, b.services, ServiceKey);
    PutAllIdempotent(a.extra, b.extra, EntryKey<Json>);
  }

  // ---- Services by protocol and port ----

  lemma {:induction false} KeyedByPort()
    ensures SameIdentity(ServiceKey, PortOf)
  {
    forall s, t
      ensures ServiceKey(s) == ServiceKey(t) <==> PortOf(s) == PortOf(t)
    {
      ServiceKeyIff(s, t);
    }
  }

  /**
   * After adding services, every protocol and port answers with the last service added for it; where none was added
   * the service stays.
   */
  lemma {:induction false} AddedServices(services: seq<Service>, more: seq<Service>, protocol: string, port: int)
    ensures Get(AddServices(services, more), PortOf, (protocol, port)) ==
            if exists i :: 0 <= i < |more| && more[i].protocol == protocol && more[i].port == port
            then Last(more, PortOf, (protocol, port))
            else Get(services, PortOf, (protocol, port))
  {
    KeyedByPort();
    PutAllAlike(services, more, ServiceKey, PortOf);
    PutAllGet(services, more, PortOf, (protocol, port));
    if i :| 0 <= i < |more| && more[i].protocol == protocol && more[i].port == port {
      HasKeyAt(more, PortOf, i);
    }
  }

  /** So does a merge: the incoming host decides about the ports it lists, and no other port is lost or changed. */
  lemma {:induction false} MergedServices(a: Host, b: Host, now: string, protocol: string, port: int)
    ensures Get(MergeHost(a, b, now).services, PortOf, (protocol, port)) ==
            if exists i :: 0 <= i < |b.services| && b.services[i].protocol == protocol && b.services[i].port == port
            then Last(b.services, PortOf, (protocol, port))
            else Get(a.services, PortOf, (protocol, port))
  {
    AddedServices(a.services, b.services, protocol, port);
  }

  // ---- What a whole history of sightings leaves behind ----

  /** `first` merged with each later sighting in turn; `clock(i)` is read by the i-th merge. */
  function MergeSightings(first: Host, later: seq<Host>, clock: nat -> string): Host {
    if later == [] then first
    else
      var n := |later| - 1;
      MergeHost(MergeSightings(first, later[..n], clock), later[n], clock(n))
  }

  /** The index of the last element with property `p`, or 0 when there is none after the first. */
  function LastWhere<T>(xs: seq<T>, p: T -> bool): (i: nat)
    requires xs != []
    ensures i < |xs| && (i == 0 || p(xs[i]))
    ensures forall j :: i < j < |xs| ==> !p(xs[j])
  {
    var n := |xs| - 1;
    if n == 0 || p(xs[n]) then n else LastWhere(xs[..n], p)
  }

  /** The index of the first element with property `p`, or the last index when there is none before it. */
  function FirstWhere<T>(xs: seq<T>, p: T -> bool): (i: nat)
    requires xs != []
    ensures i < |xs| && (i == |xs| - 1 || p(xs[i]))
    ensures forall j :: 0 <= j < i ==> !p(xs[j])
  {
    if |xs| == 1 || p(xs[0]) then 0 else 1 + FirstWhere(xs[1..], p)
  }

  predicate HasHostname(h: Host) { Truthy(h.hostname) }
  predicate HasMac(h: Host) { Truthy(h.mac) }
  predicate HasOs(h: Host) { Truthy(h.os) }
  predicate HasHypervisor(h: Host) { Truthy(h.hypervisorId) }
  predicate HasFirstSeen(h: Host) { Truthy(h.firstSeen) }
  predicate HasRole(h: Host) { h.role != Unknown }
  predicate HasPackages(h: Host) { h.packages != [] }
  predicate HasProcesses(h: Host) { h.processes != [] }
  predicate HasContainers(h: Host) { h.containers != [] }
  function AddressesOf(h: Host): seq<string> { h.addresses }
  function TagsOf(h: Host): seq<string> { h.tags }
  function HostedOf(h: Host): seq<string> { h.hostedVmIds }
  function SourcesOf(h: Host): seq<DiscoverySource> { h.sources }
  function ServicesOf(h: Host): seq<Service> { h.services }
  function ExtraOf(h: Host): seq<Entry<Json>> { h.extra }

  lemma {:induction false} LastWhereSnoc<T>(xs: seq<T>, x: T, p: T -> bool)
    requires xs != []
    ensures LastWhere(xs + [x], p) == if p(x) then |xs| else LastWhere(xs, p)
  {
    assert (xs + [x])[..|xs|] == xs;
  }

  lemma {:induction false} FirstWhereSnoc<T>(xs: seq<T>, x: T, p: T -> bool)
    requires xs != []
    ensures FirstWhere(xs + [x], p) == if p(xs[FirstWhere(xs, p)]) then FirstWhere(xs, p) else |xs|
  {
    var i, j := FirstWhere(xs, p), FirstWhere(xs + [x], p);
    assert forall k :: 0 <= k < |xs| ==> (xs + [x])[k] == xs[k];
    assert p(xs[i]) ==> p((xs + [x])[i]);
  }

  /** An attribute that merging overwrites with every `p`-sighting ends as that of the last `p`-sighting. */
  lemma {:induction false} SightingsLast<V(!new)>(
      first: Host, later: seq<Host>, clock: nat -> string, f: Host -> V, p: Host -> bool)
    requires forall h, x, now :: f(MergeHost(h, x, now)) == if p(x) then f(x) else f(h)
    ensures var all := [first] + later;
            f(MergeSightings(first, later, clock)) == f(all[LastWhere(all, p)])
  {
    hide MergeHost;
    if later == [] {
      assert [first] + later == [first];
    } else {
      var n := |later| - 1;
      var front, x := [first] + later[..n], later[n];
      var m := MergeSightings(first, later[..n], clock);
      SightingsLast(first, later[..n], clock, f, p);
      LastWhereSnoc(front, x, p);
      assert f(MergeHost(m, x, clock(n))) == if p(x) then f(x) else f(m);
      assert [first] + later == front + [x];
    }
  }

  /** Each optional attribute, the role and the deep-inspection lists hold the last non-empty value ever sighted. */
  lemma {:induction false} SightingsScalars(first: Host, later: seq<Host>, clock: nat -> string)
    ensures var all, r := [first] + later, MergeSightings(first, later, clock);
            && r.hostname == all[LastWhere(all, HasHostname)].hostname
            && r.mac == all[LastWhere(all, HasMac)].mac
            && r.os == all[LastWhere(all, HasOs)].os
            && r.hypervisorId == all[LastWhere(all, HasHypervisor)].hypervisorId
            && r.role == all[LastWhere(all, HasRole)].role
            && r.packages == all[LastWhere(all, HasPackages)].packages
            && r.processes == all[LastWhere(all, HasProcesses)].processes
            && r.containers == all[LastWhere(all, HasContainers)].containers
  {
    SightingsLast(first, later, clock, (h: Host) => h.hostname, HasHostname);
    SightingsLast(first, later, clock, (h: Host) => h.mac, HasMac);
    SightingsLast(first, later, clock, (h: Host) => h.os, HasOs);
    SightingsLast(first, later, clock, (h: Host) => h.hypervisorId, HasHypervisor);
    SightingsLast(first, later, clock, (h: Host) => h.role, HasRole);
    SightingsLast(first, later, clock, (h: Host) => h.packages, HasPackages);
    SightingsLast(first, later, clock, (h: Host) => h.processes, HasProcesses);
    SightingsLast(first, later, clock, (h: Host) => h.containers, HasContainers);
  }

  /** The id is fixed, the first-seen stamp is the first one known, the last-seen stamp is the latest reading. */
  lemma {:induction false} SightingsStamps(first: Host, later: seq<Host>, clock: nat -> string)
    ensures var all, r := [first] + later, MergeSightings(first, later, clock);
            && r.id == first.id
            && r.firstSeen == all[FirstWhere(all, HasFirstSeen)].firstSeen
            && r.lastSeen == if later == [] then first.lastSeen else Some(clock(|later| - 1))
  {
    if later != [] {
      var n := |later| - 1;
      var front := [first] + later[..n];
      SightingsStamps(first, later[..n], clock);
      assert [first] + later == front + [later[n]];
      FirstWhereSnoc(front, later[n], HasFirstSeen);
    }
  }

  /** What a host seen in `all` lists: its own list after one sighting, the ordered union after more. */
  function ListedIn<V(==)>(all: seq<Host>, f: Host -> seq<V>): seq<V>
    requires all != []
  {
    if |all| == 1 then f(all[0]) else Dedupe(FlatMap(all, f))
  }

  lemma ListedInOne<V>(x: Host, f: Host -> seq<V>)
    ensures ListedIn([x], f) == f(x)
  {
  }

  lemma {:induction false} ListedInSnoc<V>(front: seq<Host>, x: Host, f: Host -> seq<V>)
    requires front != []
    ensures Union(ListedIn(front, f), f(x)) == ListedIn(front + [x], f)
  {
    FlatMapSnoc(front, x, f);
    if |front| == 1 {
      assert FlatMap(front[..0], f) == [];
      assert FlatMap(front, f) == [] + f(front[0]) == f(front[0]);
    }
    DedupeLeft(FlatMap(front, f), f(x));
  }

  lemma {:induction false} SightingsListed<V(!new)>(
      first: Host, later: seq<Host>, clock: nat -> string, f: Host -> seq<V>)
    requires forall h, x, now :: f(MergeHost(h, x, now)) == Union(f(h), f(x))
    ensures f(MergeSightings(first, later, clock)) == ListedIn([first] + later, f)
  {
    hide Dedupe, ListedIn, MergeHost;
    if later == [] {
      ListedInOne(first, f);
      assert [first] + later == [first];
    } else {
      var n := |later| - 1;
      var front, x := [first] + later[..n], later[n];
      var m := MergeSightings(first, later[..n], clock);
      SightingsListed(first, later[..n], clock, f);
      ListedInSnoc(front, x, f);
      assert f(MergeHost(m, x, clock(n))) == Union(f(m), f(x));
      assert [first] + later == front + [x];
    }
  }

  /** The address, tag, VM and source lists are ordered unions over the whole history. */
  lemma {:induction false} SightingsLists(first: Host, later: seq<Host>, clock: nat -> string)
    ensures var all, r := [first] + later, MergeSightings(first, later, clock);
            && r.addresses == ListedIn(all, AddressesOf)
            && r.tags == ListedIn(all, TagsOf)
            && r.hostedVmIds == ListedIn(all, HostedOf)
            && r.sources == ListedIn(all, SourcesOf)
  {
    SightingsListed(first, later, clock, AddressesOf);
    SightingsListed(first, later, clock, TagsOf);
    SightingsListed(first, later, clock, HostedOf);
    SightingsListed(first, later, clock, SourcesOf);
  }

  /**
   * The service list of a host first seen with distinct keys is an insertion-ordered map: keys in order of
   * first appearance over the whole history, each with the last service sighted under it. So is `extra`.
   */
  lemma {:induction false} SightingsServices(first: Host, later: seq<Host>, clock: nat -> string)
    requires DistinctServices(first) && IsDict(first.extra)
    ensures var all, r := [first] + later, MergeSightings(first, later, clock);
            && DistinctServices(r)
            && KeysOf(r.services, ServiceKey) == Dedupe(KeysOf(FlatMap(all, ServicesOf), ServiceKey))
            && (forall k :: Get(r.services, ServiceKey, k) == Last(FlatMap(all, ServicesOf), ServiceKey, k))
            && IsDict(r.extra)
            && KeysOf(r.extra, EntryKey) == Dedupe(KeysOf(FlatMap(all, ExtraOf), EntryKey))
            && (forall k :: Get(r.extra, EntryKey, k) == Last(FlatMap(all, ExtraOf), EntryKey, k))
  {
    SightingsPutAll(first, later, clock);
    var all, r := [first] + later, MergeSightings(first, later, clock);
    PutAllOntoDistinct(first.services, FlatMap(later, ServicesOf), ServiceKey);
    PutAllOntoDistinct(first.extra, FlatMap(later, ExtraOf), EntryKey<Json>);
    FlatMapCons(first, later, ServicesOf);
    FlatMapCons(first, later, ExtraOf);
    PutAllFromEmpty(FlatMap(all, ServicesOf), ServiceKey);
    PutAllFromEmpty(FlatMap(all, ExtraOf), EntryKey<Json>);
  }

  /**
   * Over all sightings every protocol and port answers with the last service a later sighting listed for it, and with
   * that of the first sighting where no later one did.
   */
  lemma {:induction false} SightingsPorts(
      first: Host, later: seq<Host>, clock: nat -> string, protocol: string, port: int)
    ensures var seen := FlatMap(later, ServicesOf);
            Get(MergeSightings(first, later, clock).services, PortOf, (protocol, port)) ==
            if exists i :: 0 <= i < |seen| && seen[i].protocol == protocol && seen[i].port == port
            then Last(seen, PortOf, (protocol, port))
            else Get(first.services, PortOf, (protocol, port))
  {
    SightingsPutAll(first, later, clock);
    AddedServices(first.services, FlatMap(later, ServicesOf), protocol, port);
  }

  lemma {:induction false} PutAllFromEmpty<T(!new), K(!new)>(xs: seq<T>, key: T -> K)
    ensures var r := PutAll([], xs, key);
            && Distinct(r, key)
            && KeysOf(r, key) == Dedupe(KeysOf(xs, key))
            && (forall k :: Get(r, key, k) == Last(xs, key, k))
  {
    UpsertAllDistinct([], xs, key, TakeNew);
    UpsertAllKeys([], xs, key, TakeNew);
    assert [] + KeysOf(xs, key) == KeysOf(xs, key);
    forall k
      ensures Get(PutAll([], xs, key), key, k) == Last(xs, key, k)
    {
      PutAllGet([], xs, key, k);
      LastSome(xs, key, k);
    }
  }

  lemma {:induction false} SightingsPutAll(first: Host, later: seq<Host>, clock: nat -> string)
    ensures var r := MergeSightings(first, later, clock);
            && r.services == PutAll(first.services, FlatMap(later, ServicesOf), ServiceKey)
            && r.extra == PutAll(first.extra, FlatMap(later, ExtraOf), EntryKey)
  {
    if later != [] {
      var n := |later| - 1;
      SightingsPutAll(first, later[..n], clock);
      UpsertAllConcat(first.services, FlatMap(later[..n], ServicesOf), later[n].services, ServiceKey, TakeNew);
      UpsertAllConcat(first.extra, FlatMap(later[..n], ExtraOf), later[n].extra, EntryKey<Json>, TakeNew);
    }
  }

  /** Putting onto a list of distinct keys is putting both lists onto the empty one. */
  lemma {:induction false} PutAllOntoDistinct<T(!new), K(!new)>(s: seq<T>, xs: seq<T>, key: T -> K)
    requires Distinct(s, key)
    ensures PutAll(s, xs, key) == PutAll([], s + xs, key)
  {
    PutAllDistinctFromEmpty(s, key);
    UpsertAllConcat([], s, xs, key, TakeNew);
  }

  lemma {:induction false} PutAllDistinctFromEmpty<T(!new), K(!new)>(xs: seq<T>, key: T -> K)
    requires Distinct(xs, key)
    ensures PutAll([], xs, key) == xs
  {
    if xs != [] {
      var n := |xs| - 1;
      PutAllDistinctFromEmpty(xs[..n], key);
      FindFront(xs, key, key(xs[n]));
      FindDistinct(xs, key, n);
      assert xs == xs[..n] + [xs[n]];
    }
  }
}
