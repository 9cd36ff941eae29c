/** Naming hosts from DHCP leases and reverse DNS: `HostnameEnricher`. */
module Hostnames {
  import opened Counting
  import opened Json
  import opened KeyedLists
  import opened Leases
  import opened Model
  import opened Wrappers
  import O = InventoryObject

  // ---- What the lease files say ----

  /** A lease file's lines, or nothing when it cannot be read. */
  type LeaseFile = Option<seq<string>>

  /** All leases of the readable files, in order; a file that makes the parser raise ends it. */
  ghost function AllLeases(files: seq<LeaseFile>, lower: string -> string): Result<seq<Lease>, LeaseError> {
    if files == [] then Ok([])
    else
      var n := |files| - 1;
      var before :- AllLeases(files[..n], lower);
      if files[n].None? then Ok(before)
      else
        var more :- Parsed(files[n].value, lower);
        Ok(before + more)
  }

  /** The name of the first lease with a client name and property `p`. */
  function FirstName(leases: seq<Lease>, p: Lease -> bool): Option<string> {
    if leases == [] then None
    else
      var n := |leases| - 1;
      var before := FirstName(leases[..n], p);
      if before.Some? then before
      else if Truthy(leases[n].hostname) && p(leases[n]) then leases[n].hostname
      else None
  }

  function ByMac(mac: string): Lease -> bool {
    (l: Lease) => l.mac == mac != ""
  }

  function ByIp(ip: string): Lease -> bool {
    (l: Lease) => l.ip == ip
  }

  function FirstAddressName(leases: seq<Lease>, addresses: seq<string>): Option<string> {
    if addresses == [] then None
    else if FirstName(leases, ByIp(addresses[0])).Some? then FirstName(leases, ByIp(addresses[0]))
    else FirstAddressName(leases, addresses[1..])
  }

  /** The lease name of a host: by MAC if it has a MAC some lease names, else by its first address some lease names. */
  function DhcpName(leases: seq<Lease>, lower: string -> string): Host -> Option<string> {
    (h: Host) =>
      var byMac := if Truthy(h.mac) then FirstName(leases, ByMac(lower(h.mac.value))) else None;
      if byMac.Some? then byMac else FirstAddressName(leases, h.addresses)
  }

  /** The reverse-DNS name of a host's first address; `names` is what the sweep brought back. */
  function RdnsName(names: map<string, Option<string>>): Host -> Option<string> {
    (h: Host) =>
      if Truthy(PrimaryAddress(h)) && PrimaryAddress(h).value in names then names[PrimaryAddress(h).value] else None
  }

  // ---- What naming does to a host ----

  function Renamed(h: Host, name: string, mark: string): Host {
    h.(hostname := Some(name), extra := Upsert(h.extra, Entry(mark, Str(name)), EntryKey<Json>, TakeNew<Entry<Json>>))
  }

  predicate GetsName(h: Host, namer: Host -> Option<string>) {
    !Truthy(h.hostname) && Truthy(namer(h))
  }

  /** A host without a name takes the one `namer` has for it; a host with a name is left alone. */
  function Named(h: Host, namer: Host -> Option<string>, mark: string): Host {
    if GetsName(h, namer) then Renamed(h, namer(h).value, mark) else h
  }

  function NamedHosts(hosts: seq<Entry<Host>>, namer: Host -> Option<string>, mark: string): (r: seq<Entry<Host>>)
    ensures |r| == |hosts|
    ensures forall i :: 0 <= i < |hosts| ==> r[i] == Entry(hosts[i].key, Named(hosts[i].value, namer, mark))
  {
    seq(|hosts|, i requires 0 <= i < |hosts| => Entry(hosts[i].key, Named(hosts[i].value, namer, mark)))
  }

  /** How many hosts a pass names: the `applied` count. */
  function CountNamed(hosts: seq<Entry<Host>>, namer: Host -> Option<string>): (n: nat)
    ensures n <= |hosts|
  {
    if hosts == [] then 0
    else
      CountNamed(hosts[..|hosts| - 1], namer) + if GetsName(hosts[|hosts| - 1].value, namer) then 1 else 0
  }

  function CountUnreadable(files: seq<LeaseFile>): nat {
    if files == [] then 0 else CountUnreadable(files[..|files| - 1]) + if files[|files| - 1].None? then 1 else 0
  }

  // ---- The two passes ----

  /** `setdefault` for every named lease of one file. */
  method IndexLeases(leases: seq<Lease>, byMac: map<string, string>, byIp: map<string, string>, ghost seen: seq<Lease>)
      returns (byMac': map<string, string>, byIp': map<string, string>)
    requires Indexes(byMac, byIp, seen)
    ensures Indexes(byMac', byIp', seen + leases)
  {
    byMac', byIp' := byMac, byIp;
    assert seen + leases[..0] == seen;
    for i := 0 to |leases|
      invariant Indexes(byMac', byIp', seen + leases[..i])
    {
      var l := leases[i];
      assert seen + leases[..i + 1] == seen + leases[..i] + [l];
      OneMoreLease(byMac', byIp', seen + leases[..i], l);
      if !Truthy(l.hostname) {
        continue;
      }
      if l.mac != "" && l.mac !in byMac' {
        byMac' := byMac'[l.mac := l.hostname.value];
      }
      if l.ip !in byIp' {
        byIp' := byIp'[l.ip := l.hostname.value];
      }
    }
    assert leases[..|leases|] == leases;
  }

  function Lookup(d: map<string, string>, k: string): Option<string> {
    if k in d then Some(d[k]) else None
  }

  /** Both dicts answer with the first named lease. */
  ghost predicate Indexes(byMac: map<string, string>, byIp: map<string, string>, leases: seq<Lease>) {
    && (forall k :: Lookup(byMac, k) == FirstName(leases, ByMac(k)))
    && (forall k :: Lookup(byIp, k) == FirstName(leases, ByIp(k)))
  }

  lemma {:induction false} OneMoreLease(
      byMac: map<string, string>, byIp: map<string, string>, seen: seq<Lease>, l: Lease)
    requires Indexes(byMac, byIp, seen)
    ensures var m := if Truthy(l.hostname) && l.mac != "" && l.mac !in byMac
                       then byMac[l.mac := l.hostname.value] else byMac;
            var p := if Truthy(l.hostname) && l.ip !in byIp then byIp[l.ip := l.hostname.value] else byIp;
            Indexes(m, p, seen + [l])
  {
    assert (seen + [l])[..|seen|] == seen;
    var m := if Truthy(l.hostname) && l.mac != "" && l.mac !in byMac then byMac[l.mac := l.hostname.value] else byMac;
    var p := if Truthy(l.hostname) && l.ip !in byIp then byIp[l.ip := l.hostname.value] else byIp;
    forall k
      ensures Lookup(m, k) == FirstName(seen + [l], ByMac(k)) && Lookup(p, k) == FirstName(seen + [l], ByIp(k))
    {
      assert Lookup(byMac, k) == FirstName(seen, ByMac(k)) && Lookup(byIp, k) == FirstName(seen, ByIp(k));
    }
  }

  method IndexFiles(files: seq<LeaseFile>, lower: string -> string)
      returns (r: Result<(map<string, string>, map<string, string>), LeaseError>, errors: nat)
    ensures r.Err? <==> AllLeases(files, lower).Err?
    ensures r.Err? ==> r.error == AllLeases(files, lower).error
    ensures r.Ok? ==> Indexes(r.value.0, r.value.1, AllLeases(files, lower).value) && errors == CountUnreadable(files)
  {
    hide Parsed, Indexes, FirstName;
    var byMac: map<string, string> := map[];
    var byIp: map<string, string> := map[];
    errors := 0;
    EmptyIndexes();
    assert files[..0] == [];
    for i := 0 to |files|
      invariant AllLeases(files[..i], lower).Ok? && Indexes(byMac, byIp, AllLeases(files[..i], lower).value)
      invariant errors == CountUnreadable(files[..i])
    {
      assert files[..i + 1][..i] == files[..i] && files[..i + 1][i] == files[i];
      if files[i].None? {
        errors := errors + 1;
        continue;
      }
      var leases := ParseLeases(files[i].value, lower);
      if leases.Err? {
        FailureStays(files, i + 1, lower);
        return Err(leases.error), errors;
      }
      byMac, byIp := IndexLeases(leases.value, byMac, byIp, AllLeases(files[..i], lower).value);
    }
    assert files[..|files|] == files;
    r := Ok((byMac, byIp));
  }

  lemma EmptyIndexes()
    ensures Indexes(map[], map[], [])
  {
  }

  lemma {:induction false} FailureStays(files: seq<LeaseFile>, i: nat, lower: string -> string)
    requires i <= |files| && AllLeases(files[..i], lower).Err?
    ensures AllLeases(files, lower) == AllLeases(files[..i], lower)
  {
    hide Parsed;
    if i == |files| {
      assert files[..i] == files;
    } else {
      var front := files[..|files| - 1];
      assert front[..i] == files[..i];
      FailureStays(front, i, lower);
    }
  }

  /** `next((by_ip[a] for a in host.addresses if a in by_ip), None)` */
  method FirstKnown(
      addresses: seq<string>, byIp: map<string, string>, ghost byMac: map<string, string>, ghost leases: seq<Lease>)
      returns (r: Option<string>)
    requires Indexes(byMac, byIp, leases)
    ensures r == FirstAddressName(leases, addresses)
  {
    var i := 0;
    assert addresses[0..] == addresses;
    while i < |addresses|
      invariant i <= |addresses| && FirstAddressName(leases, addresses) == FirstAddressName(leases, addresses[i..])
    {
      assert Lookup(byIp, addresses[i]) == FirstName(leases, ByIp(addresses[i]));
      if addresses[i] in byIp {
        return Some(byIp[addresses[i]]);
      }
      assert addresses[i..][1..] == addresses[i + 1..];
      i := i + 1;
    }
    return None;
  }

  /** The name expression of the host loop. */
  method LookUpHost(host: Host, byMac: map<string, string>, byIp: map<string, string>, lower: string -> string,
                    ghost leases: seq<Lease>)
      returns (name: Option<string>)
    requires Indexes(byMac, byIp, leases)
    ensures name == DhcpName(leases, lower)(host)
  {
    name := None;
    if Truthy(host.mac) {
      assert Lookup(byMac, lower(host.mac.value)) == FirstName(leases, ByMac(lower(host.mac.value)));
      name := Lookup(byMac, lower(host.mac.value));
      NamesAreTruthy(leases, ByMac(lower(host.mac.value)));
    }
    if !Truthy(name) {
      name := FirstKnown(host.addresses, byIp, byMac, leases);
    }
  }

  /** `_from_dhcp`: a lease file that makes the parser raise ends it before any host is touched. */
  method FromDhcp(inventory: O.Inventory, files: seq<LeaseFile>, lower: string -> string)
      returns (r: Result<(nat, nat), LeaseError>)
    modifies inventory`hosts
    ensures var leases := AllLeases(files, lower);
            if leases.Err? then r == Err(leases.error) && inventory.hosts == old(inventory.hosts)
            else
              var namer := DhcpName(leases.value, lower);
              && inventory.hosts == NamedHosts(old(inventory.hosts), namer, "dhcp_hostname")
              && r == Ok((CountNamed(old(inventory.hosts), namer), CountUnreadable(files)))
  {
    var index, errors := IndexFiles(files, lower);
    if index.Err? {
      return Err(index.error);
    }
    var (byMac, byIp) := index.value;
    ghost var leases := AllLeases(files, lower).value;
    ghost var namer := DhcpName(leases, lower);
    ghost var before := inventory.hosts;
    hide AllLeases, FirstName, FirstAddressName, CountUnreadable, DhcpName, Indexes, Renamed, NamedHosts, CountNamed;
    var applied := 0;
    NobodyNamed(before, namer, "dhcp_hostname");
    for i := 0 to |inventory.hosts|
      invariant |inventory.hosts| == |before|
      invariant inventory.hosts == NamedHosts(before[..i], namer, "dhcp_hostname") + before[i..]
      invariant applied == CountNamed(before[..i], namer)
    {
      OneMoreNamed(before, i, namer, "dhcp_hostname");
      assert inventory.hosts[i] == before[i];
      var host := inventory.hosts[i].value;
      if Truthy(host.hostname) {
        continue;
      }
      var name := LookUpHost(host, byMac, byIp, lower, leases);
      if Truthy(name) {
        var renamed := Renamed(host, name.value, "dhcp_hostname");
        inventory.hosts := inventory.hosts[i := Entry(inventory.hosts[i].key, renamed)];
        applied := applied + 1;
      }
    }
    AllNamed(before, namer, "dhcp_hostname");
    r := Ok((applied, errors));
  }

  lemma {:induction false} NamesAreTruthy(leases: seq<Lease>, p: Lease -> bool)
    ensures FirstName(leases, p).Some? ==> Truthy(FirstName(leases, p))
  {
    if leases != [] {
      NamesAreTruthy(leases[..|leases| - 1], p);
    }
  }

  /** `_from_rdns`, given what the sweep over the pending addresses returns. */
  method FromRdns(inventory: O.Inventory, names: map<string, Option<string>>) returns (applied: nat)
    modifies inventory`hosts
    ensures inventory.hosts == NamedHosts(old(inventory.hosts), RdnsName(names), "rdns")
    ensures applied == CountNamed(old(inventory.hosts), RdnsName(names))
  {
    hide Renamed, NamedHosts, CountNamed;
    ghost var namer := RdnsName(names);
    ghost var before := inventory.hosts;
    applied := 0;
    NobodyNamed(before, namer, "rdns");
    for i := 0 to |inventory.hosts|
      invariant |inventory.hosts| == |before|
      invariant inventory.hosts == NamedHosts(before[..i], namer, "rdns") + before[i..]
      invariant applied == CountNamed(before[..i], namer)
    {
      OneMoreNamed(before, i, namer, "rdns");
      assert inventory.hosts[i] == before[i];
      var host := inventory.hosts[i].value;
      if Truthy(host.hostname) || !Truthy(PrimaryAddress(host)) {
        continue;
      }
      var name := if PrimaryAddress(host).value in names then names[PrimaryAddress(host).value] else None;
      if Truthy(name) {
        var renamed := Renamed(host, name.value, "rdns");
        inventory.hosts := inventory.hosts[i := Entry(inventory.hosts[i].key, renamed)];
        applied := applied + 1;
      }
    }
    AllNamed(before, namer, "rdns");
  }

  lemma {:induction false} AllNamed(hosts: seq<Entry<Host>>, namer: Host -> Option<string>, mark: string)
    ensures NamedHosts(hosts[..|hosts|], namer, mark) + hosts[|hosts|..] == NamedHosts(hosts, namer, mark)
    ensures CountNamed(hosts[..|hosts|], namer) == CountNamed(hosts, namer)
  {
    assert hosts[..|hosts|] == hosts;
  }

  lemma NobodyNamed(hosts: seq<Entry<Host>>, namer: Host -> Option<string>, mark: string)
    ensures NamedHosts(hosts[..0], namer, mark) + hosts[0..] == hosts && CountNamed(hosts[..0], namer) == 0
  {
  }

  /** The list after one more turn of a naming loop, with the turn's own change or without one. */
  lemma {:induction false} OneMoreNamed(hosts: seq<Entry<Host>>, i: nat, namer: Host -> Option<string>, mark: string)
    requires i < |hosts|
    ensures var now, next := NamedHosts(hosts[..i], namer, mark) + hosts[i..],
                             NamedHosts(hosts[..i + 1], namer, mark) + hosts[i + 1..];
            && |now| == |hosts|
            && next == now[i := Entry(hosts[i].key, Named(hosts[i].value, namer, mark))]
            && (!GetsName(hosts[i].value, namer) ==> next == now)
    ensures CountNamed(hosts[..i + 1], namer) ==
            CountNamed(hosts[..i], namer) + if GetsName(hosts[i].value, namer) then 1 else 0
  {
    hide Renamed;
    assert hosts[..i + 1][..i] == hosts[..i];
  }

  // ---- What the enricher promises ----

  /** Leases first, then reverse DNS, as `enrich` runs them. */
  function Enriched(h: Host, leases: seq<Lease>, lower: string -> string, names: map<string, Option<string>>): Host {
    Named(Named(h, DhcpName(leases, lower), "dhcp_hostname"), RdnsName(names), "rdns")
  }

  /**
   * A name a stronger source set stays; otherwise the lease name wins over the reverse-DNS name; without any of
   * them the hostname is left as it was. Nothing but the hostname and the note about its source ever changes.
   */
  lemma {:induction false} NamePrecedence(
      h: Host, leases: seq<Lease>, lower: string -> string, names: map<string, Option<string>>)
    ensures var r := Enriched(h, leases, lower, names);
            && r.hostname == (if Truthy(h.hostname) then h.hostname
                              else if Truthy(DhcpName(leases, lower)(h)) then DhcpName(leases, lower)(h)
                              else if Truthy(RdnsName(names)(h)) then RdnsName(names)(h)
                              else h.hostname)
            && r == h.(hostname := r.hostname, extra := r.extra)
            && (Truthy(h.hostname) ==> r == h)
            && (GetsName(h, DhcpName(leases, lower)) ==>
                  Get(r.extra, EntryKey<Json>, "dhcp_hostname") == Some(Entry("dhcp_hostname", Str(r.hostname.value))))
            && (GetsName(h, RdnsName(names)) && !GetsName(h, DhcpName(leases, lower)) ==>
                  Get(r.extra, EntryKey<Json>, "rdns") == Some(Entry("rdns", Str(r.hostname.value))))
            && (forall k ::
                  (k == "dhcp_hostname" ==> !GetsName(h, DhcpName(leases, lower))) &&
                  (k == "rdns" ==> GetsName(h, DhcpName(leases, lower)) || !GetsName(h, RdnsName(names))) ==>
                  Get(r.extra, EntryKey<Json>, k) == Get(h.extra, EntryKey<Json>, k))
  {
    hide FirstName, FirstAddressName;
    var d := Named(h, DhcpName(leases, lower), "dhcp_hostname");
    if GetsName(h, DhcpName(leases, lower)) {
      NoteTaken(h, DhcpName(leases, lower), "dhcp_hostname");
    } else if GetsName(h, RdnsName(names)) {
      NoteTaken(h, RdnsName(names), "rdns");
    }
    forall k |
      (k == "dhcp_hostname" ==> !GetsName(h, DhcpName(leases, lower))) &&
      (k == "rdns" ==> GetsName(h, DhcpName(leases, lower)) || !GetsName(h, RdnsName(names)))
      ensures Get(Enriched(h, leases, lower, names).extra, EntryKey<Json>, k) == Get(h.extra, EntryKey<Json>, k)
    {
      if k != "dhcp_hostname" {
        NoteKept(h, DhcpName(leases, lower), "dhcp_hostname", k);
      }
      if k != "rdns" {
        NoteKept(d, RdnsName(names), "rdns", k);
      }
    }
  }

  lemma {:induction false} NoteTaken(h: Host, namer: Host -> Option<string>, mark: string)
    requires GetsName(h, namer)
    ensures var r := Named(h, namer, mark);
            Get(r.extra, EntryKey<Json>, mark) == Some(Entry(mark, Str(r.hostname.value)))
  {
    UpsertGet(h.extra, Entry(mark, Str(namer(h).value)), EntryKey<Json>, TakeNew<Entry<Json>>, mark);
  }

  lemma {:induction false} NoteKept(h: Host, namer: Host -> Option<string>, mark: string, k: string)
    requires k != mark
    ensures Get(Named(h, namer, mark).extra, EntryKey<Json>, k) == Get(h.extra, EntryKey<Json>, k)
  {
    if GetsName(h, namer) {
      UpsertGet(h.extra, Entry(mark, Str(namer(h).value)), EntryKey<Json>, TakeNew<Entry<Json>>, k);
    }
  }

  /** A second run names nobody and changes nothing. */
  lemma {:induction false} EnrichTwice(
      h: Host, leases: seq<Lease>, lower: string -> string, names: map<string, Option<string>>)
    ensures var r := Enriched(h, leases, lower, names);
            && Enriched(r, leases, lower, names) == r
            && !GetsName(r, DhcpName(leases, lower)) && !GetsName(r, RdnsName(names))
  {
    hide FirstName, FirstAddressName;
  }

  /** The lease name is that of the first lease, over all files in order, that names the client. */
  lemma {:induction false} FirstNameIs(leases: seq<Lease>, p: Lease -> bool)
    ensures match FirstName(leases, p)
            case None => forall i :: 0 <= i < |leases| ==> !(Truthy(leases[i].hostname) && p(leases[i]))
            case Some(name) =>
              exists i :: 0 <= i < |leases| && leases[i].hostname == Some(name) && name != "" && p(leases[i]) &&
                          forall j :: 0 <= j < i ==> !(Truthy(leases[j].hostname) && p(leases[j]))
  {
    if leases != [] {
      var n := |leases| - 1;
      FirstNameIs(leases[..n], p);
      if FirstName(leases[..n], p).Some? {
        var i :| 0 <= i < n && leases[..n][i].hostname == FirstName(leases[..n], p) && Truthy(leases[i].hostname) &&
                 p(leases[i]) && forall j :: 0 <= j < i ==> !(Truthy(leases[..n][j].hostname) && p(leases[..n][j]));
        assert forall j :: 0 <= j < i ==> leases[..n][j] == leases[j];
        assert leases[i].hostname == FirstName(leases, p);
      } else {
        assert forall j :: 0 <= j < n ==> leases[..n][j] == leases[j];
      }
    }
  }

  // ---- Which lease names a host ----

  /** Lease `i` names the client with the MAC address of `h`. */
  ghost predicate NamesMac(leases: seq<Lease>, i: nat, h: Host, lower: string -> string) {
    && i < |leases| && leases[i].hostname.Some? && leases[i].hostname.value != ""
    && h.mac.Some? && h.mac.value != "" && leases[i].mac == lower(h.mac.value) && leases[i].mac != ""
  }

  /** Lease `i` names the client at address `j` of `h`. */
  ghost predicate NamesAddress(leases: seq<Lease>, i: nat, h: Host, j: nat) {
    && i < |leases| && leases[i].hostname.Some? && leases[i].hostname.value != ""
    && j < |h.addresses| && leases[i].ip == h.addresses[j]
  }

  lemma {:induction false} FirstNameAt(leases: seq<Lease>, p: Lease -> bool, i: nat)
    requires i < |leases| && Truthy(leases[i].hostname) && p(leases[i])
    requires forall j :: 0 <= j < i ==> !(Truthy(leases[j].hostname) && p(leases[j]))
    ensures FirstName(leases, p) == leases[i].hostname
  {
    var n := |leases| - 1;
    FirstNameIs(leases[..n], p);
    if i < n {
      FirstNameAt(leases[..n], p, i);
    }
  }

  lemma {:induction false} NoFirstName(leases: seq<Lease>, p: Lease -> bool)
    requires forall j :: 0 <= j < |leases| ==> !(Truthy(leases[j].hostname) && p(leases[j]))
    ensures FirstName(leases, p) == None
  {
    FirstNameIs(leases, p);
  }

  /** A nameless host takes the name of the first lease for its MAC address, whatever leases its addresses have. */
  lemma {:induction false} MacNames(h: Host, leases: seq<Lease>, lower: string -> string, i: nat)
    requires h.hostname == None || h.hostname == Some("")
    requires NamesMac(leases, i, h, lower) && forall k: nat :: k < i ==> !NamesMac(leases, k, h, lower)
    ensures Named(h, DhcpName(leases, lower), "dhcp_hostname").hostname == leases[i].hostname
  {
    hide FirstName, FirstAddressName;
    var p := ByMac(lower(h.mac.value));
    forall k | 0 <= k < i
      ensures !(Truthy(leases[k].hostname) && p(leases[k]))
    {
      assert !NamesMac(leases, k, h, lower);
    }
    FirstNameAt(leases, p, i);
  }

  /** Without a lease for its MAC it takes that of the first lease for the first of its addresses that has one. */
  lemma {:induction false} AddressNames(h: Host, leases: seq<Lease>, lower: string -> string, i: nat, j: nat)
    requires h.hostname == None || h.hostname == Some("")
    requires forall k: nat :: !NamesMac(leases, k, h, lower)
    requires NamesAddress(leases, i, h, j) && forall k: nat :: k < i ==> !NamesAddress(leases, k, h, j)
    requires forall k: nat, q: nat :: q < j ==> !NamesAddress(leases, k, h, q)
    ensures Named(h, DhcpName(leases, lower), "dhcp_hostname").hostname == leases[i].hostname
  {
    hide FirstName, FirstAddressName;
    MacIsUnknown(h, leases, lower);
    assert h.addresses[0..] == h.addresses;
    AddressFrom(h, leases, i, j, 0);
  }

  lemma {:induction false} MacIsUnknown(h: Host, leases: seq<Lease>, lower: string -> string)
    requires forall k: nat :: !NamesMac(leases, k, h, lower)
    ensures Truthy(h.mac) ==> FirstName(leases, ByMac(lower(h.mac.value))) == None
  {
    hide FirstName;
    if Truthy(h.mac) {
      var p := ByMac(lower(h.mac.value));
      forall k | 0 <= k < |leases|
        ensures !(Truthy(leases[k].hostname) && p(leases[k]))
      {
        assert !NamesMac(leases, k, h, lower);
      }
      NoFirstName(leases, p);
    }
  }

  lemma {:induction false} AddressFrom(h: Host, leases: seq<Lease>, i: nat, j: nat, q: nat)
    requires NamesAddress(leases, i, h, j) && forall k: nat :: k < i ==> !NamesAddress(leases, k, h, j)
    requires forall k: nat, q: nat :: q < j ==> !NamesAddress(leases, k, h, q)
    requires q <= j
    ensures FirstAddressName(leases, h.addresses[q..]) == leases[i].hostname
    decreases j - q
  {
    hide FirstName;
    var p := ByIp(h.addresses[q]);
    if q == j {
      forall k | 0 <= k < i
        ensures !(Truthy(leases[k].hostname) && p(leases[k]))
      {
        assert !NamesAddress(leases, k, h, j);
      }
      FirstNameAt(leases, p, i);
    } else {
      forall k | 0 <= k < |leases|
        ensures !(Truthy(leases[k].hostname) && p(leases[k]))
      {
        assert !NamesAddress(leases, k, h, q);
      }
      NoFirstName(leases, p);
      assert h.addresses[q..][1..] == h.addresses[q + 1..];
      AddressFrom(h, leases, i, j, q + 1);
    }
  }

  /** A host no lease names keeps what it has. */
  lemma {:induction false} NobodyNames(h: Host, leases: seq<Lease>, lower: string -> string)
    requires forall k: nat :: !NamesMac(leases, k, h, lower)
    requires forall k: nat, q: nat :: !NamesAddress(leases, k, h, q)
    ensures Named(h, DhcpName(leases, lower), "dhcp_hostname") == h
  {
    hide FirstName, FirstAddressName;
    MacIsUnknown(h, leases, lower);
    assert h.addresses[0..] == h.addresses;
    NoAddressFrom(h, leases, 0);
  }

  lemma {:induction false} NoAddressFrom(h: Host, leases: seq<Lease>, q: nat)
    requires q <= |h.addresses| && forall k: nat, q: nat :: !NamesAddress(leases, k, h, q)
    ensures FirstAddressName(leases, h.addresses[q..]) == None
    decreases |h.addresses| - q
  {
    hide FirstName;
    if q < |h.addresses| {
      var p := ByIp(h.addresses[q]);
      forall k | 0 <= k < |leases|
        ensures !(Truthy(leases[k].hostname) && p(leases[k]))
      {
        assert !NamesAddress(leases, k, h, q);
      }
      NoFirstName(leases, p);
      assert h.addresses[q..][1..] == h.addresses[q + 1..];
      NoAddressFrom(h, leases, q + 1);
    }
  }

  /** Reverse DNS names a nameless host exactly when its first address resolved to a name. */
  lemma {:induction false} ReverseNames(h: Host, names: map<string, Option<string>>)
    requires h.hostname == None || h.hostname == Some("")
    ensures var r := Named(h, RdnsName(names), "rdns");
            if |h.addresses| > 0 && h.addresses[0] != "" && h.addresses[0] in names
               && names[h.addresses[0]].Some? && names[h.addresses[0]].value != ""
            then r.hostname == names[h.addresses[0]]
            else r == h
  {
  }

  // ---- The counts ----

  /** `applied` counts the hosts a pass changes. */
  lemma {:induction false} CountNamedIs(hosts: seq<Entry<Host>>, namer: Host -> Option<string>, mark: string)
    ensures CountNamed(hosts, namer) ==
            |set i | 0 <= i < |hosts| && Named(hosts[i].value, namer, mark) != hosts[i].value|
  {
    hide Named, GetsName, CountNamed;
    var p := (i: int) => 0 <= i < |hosts| && Named(hosts[i].value, namer, mark) != hosts[i].value;
    CountNamedUpTo(hosts, namer, mark, |hosts|, p);
    assert hosts[..|hosts|] == hosts;
    assert (set i | 0 <= i < |hosts| && p(i)) ==
           (set i | 0 <= i < |hosts| && Named(hosts[i].value, namer, mark) != hosts[i].value);
  }

  lemma {:induction false} CountNamedUpTo(
      hosts: seq<Entry<Host>>, namer: Host -> Option<string>, mark: string, n: nat, p: int -> bool)
    requires n <= |hosts|
    requires forall i :: 0 <= i < |hosts| ==> p(i) == (Named(hosts[i].value, namer, mark) != hosts[i].value)
    ensures CountNamed(hosts[..n], namer) == |set i | 0 <= i < n && p(i)|
  {
    hide Named, GetsName;
    if n > 0 {
      CountNamedUpTo(hosts, namer, mark, n - 1, p);
      OneMorePosition(n - 1, p);
      NamedDiffers(hosts[n - 1].value, namer, mark);
      assert hosts[..n][..n - 1] == hosts[..n - 1];
    }
  }

  lemma {:induction false} NamedDiffers(h: Host, namer: Host -> Option<string>, mark: string)
    ensures Named(h, namer, mark) != h <==> GetsName(h, namer)
  {
  }

  /** Errors count the files that cannot be read. */
  lemma {:induction false} CountUnreadableIs(files: seq<LeaseFile>)
    ensures CountUnreadable(files) == |set i | 0 <= i < |files| && files[i].None?|
  {
    var p := (i: int) => 0 <= i < |files| && files[i].None?;
    CountUnreadableUpTo(files, |files|, p);
    assert files[..|files|] == files;
    assert (set i | 0 <= i < |files| && p(i)) == (set i | 0 <= i < |files| && files[i].None?);
  }

  lemma {:induction false} CountUnreadableUpTo(files: seq<LeaseFile>, n: nat, p: int -> bool)
    requires n <= |files| && forall i :: 0 <= i < |files| ==> p(i) == files[i].None?
    ensures CountUnreadable(files[..n]) == |set i | 0 <= i < n && p(i)|
  {
    if n > 0 {
      CountUnreadableUpTo(files, n - 1, p);
      OneMorePosition(n - 1, p);
      assert files[..n][..n - 1] == files[..n - 1];
    }
  }
}
