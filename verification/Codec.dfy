/** `to_dict` and `from_dict`: the value trees the storage backends keep, and the round trip. */
module Codec {
  import opened Json
  import opened KeyedLists
  import opened Model
  import opened Wrappers

  /** The exceptions `from_dict` can raise: a missing key, an unknown enumeration value, a value of the wrong type. */
  datatype DecodeError = MissingKey(key: Key) | BadValue(text: string) | BadType

  type Decoded<T> = Result<T, DecodeError>

  // ---- Attributes ----

  function FromOptStr(s: Option<string>): Json { if s.Some? then Str(s.value) else Null }
  function FromOptInt(n: Option<int>): Json { if n.Some? then Int(n.value) else Null }
  function FromOptReal(r: Option<real>): Json { if r.Some? then Real(r.value) else Null }

  /** `data[k]` */
  function NeedStr(f: map<Key, Json>, k: Key): Decoded<string> {
    if k !in f then Err(MissingKey(k)) else if f[k].Str? then Ok(f[k].s) else Err(BadType)
  }

  function NeedInt(f: map<Key, Json>, k: Key): Decoded<int> {
    if k !in f then Err(MissingKey(k)) else if f[k].Int? then Ok(f[k].n) else Err(BadType)
  }

  /** `data.get(k, default)` */
  function StrOr(f: map<Key, Json>, k: Key, default: string): Decoded<string> {
    if k !in f then Ok(default) else if f[k].Str? then Ok(f[k].s) else Err(BadType)
  }

  function IntOr(f: map<Key, Json>, k: Key, default: int): Decoded<int> {
    if k !in f then Ok(default) else if f[k].Int? then Ok(f[k].n) else Err(BadType)
  }

  /** `data.get(k)` */
  function OptStr(f: map<Key, Json>, k: Key): Decoded<Option<string>> {
    if k !in f || f[k].Null? then Ok(None) else if f[k].Str? then Ok(Some(f[k].s)) else Err(BadType)
  }

  function OptInt(f: map<Key, Json>, k: Key): Decoded<Option<int>> {
    if k !in f || f[k].Null? then Ok(None) else if f[k].Int? then Ok(Some(f[k].n)) else Err(BadType)
  }

  function OptReal(f: map<Key, Json>, k: Key): Decoded<Option<real>> {
    if k !in f || f[k].Null? then Ok(None) else if f[k].Real? then Ok(Some(f[k].r)) else Err(BadType)
  }

  /** `list(data.get(k, []))` */
  function ItemsOf(f: map<Key, Json>, k: Key): Decoded<seq<Json>> {
    if k !in f then Ok([]) else if f[k].List? then Ok(f[k].items) else Err(BadType)
  }

  /** `dict(data.get("extra", {}))` */
  function ExtraIn(f: map<Key, Json>): Decoded<seq<Entry<Json>>> {
    if Extra !in f then Ok([]) else if f[Extra].Mapping? then Ok(f[Extra].entries) else Err(BadType)
  }

  function FieldsOf(j: Json): Decoded<map<Key, Json>> {
    if j.Record? then Ok(j.fields) else Err(BadType)
  }

  // ---- Lists ----

  function EncodeAll<T>(xs: seq<T>, encode: T -> Json): seq<Json> {
    if xs == [] then [] else [encode(xs[0])] + EncodeAll(xs[1..], encode)
  }

  function DecodeAll<T>(items: seq<Json>, decode: Json -> Decoded<T>): Decoded<seq<T>> {
    if items == [] then Ok([])
    else
      var x :- decode(items[0]);
      var rest :- DecodeAll(items[1..], decode);
      Ok([x] + rest)
  }

  ghost predicate Inverse<T(!new)>(encode: T -> Json, decode: Json -> Decoded<T>) {
    forall x :: decode(encode(x)) == Ok(x)
  }

  lemma {:induction false} ListRoundTrip<T(!new)>(xs: seq<T>, encode: T -> Json, decode: Json -> Decoded<T>)
    requires Inverse(encode, decode)
    ensures DecodeAll(EncodeAll(xs, encode), decode) == Ok(xs)
  {
    if xs != [] {
      ListRoundTrip(xs[1..], encode, decode);
      assert EncodeAll(xs, encode)[1..] == EncodeAll(xs[1..], encode);
      assert [xs[0]] + xs[1..] == xs;
    }
  }

  function EncodeStr(s: string): Json { Str(s) }

  function DecodeStr(j: Json): Decoded<string> {
    if j.Str? then Ok(j.s) else Err(BadType)
  }

  function StrList(f: map<Key, Json>, k: Key): Decoded<seq<string>> {
    var items :- ItemsOf(f, k);
    DecodeAll(items, DecodeStr)
  }

  lemma {:induction false} StrListRoundTrip(f: map<Key, Json>, k: Key, xs: seq<string>)
    requires k in f && f[k] == List(EncodeAll(xs, EncodeStr))
    ensures StrList(f, k) == Ok(xs)
  {
    ListRoundTrip(xs, EncodeStr, DecodeStr);
  }

  function EncodeSource(d: DiscoverySource): Json { Str(SourceName(d)) }

  function DecodeSource(j: Json): Decoded<DiscoverySource> {
    var s :- DecodeStr(j);
    if ParseSource(s).Some? then Ok(ParseSource(s).value) else Err(BadValue(s))
  }

  lemma {:induction false} SourceRoundTrip()
    ensures Inverse(EncodeSource, DecodeSource)
  {
    forall d {
      SourceNameRoundTrip(d, SourceName(d));
    }
  }

  // ---- Services ----

  function EncodeService(s: Service): Json {
    Record(map[
      Port := Int(s.port),
      Protocol := Str(s.protocol),
      Name := FromOptStr(s.name),
      Product := FromOptStr(s.product),
      Version := FromOptStr(s.version),
      State := Str(s.state),
      Banner := FromOptStr(s.banner),
      Source := FromOptStr(s.source),
      Extra := Mapping(s.extra)])
  }

  function DecodeService(j: Json): Decoded<Service> {
    var f :- FieldsOf(j);
    var port :- NeedInt(f, Port);
    var protocol :- StrOr(f, Protocol, "tcp");
    var name :- OptStr(f, Name);
    var product :- OptStr(f, Product);
    var version :- OptStr(f, Version);
    var state :- StrOr(f, State, "open");
    var banner :- OptStr(f, Banner);
    var source :- OptStr(f, Source);
    var extra :- ExtraIn(f);
    Ok(Service(port, protocol, name, product, version, state, banner, source, extra))
  }

  lemma ServiceRoundTrip(s: Service)
    ensures DecodeService(EncodeService(s)) == Ok(s)
  {
  }

  // ---- Hosts ----

  function EncodeHost(h: Host): Json {
    Record(map[
      Id := Str(h.id),
      Addresses := List(EncodeAll(h.addresses, EncodeStr)),
      Hostname := FromOptStr(h.hostname),
      Mac := FromOptStr(h.mac),
      Role := Str(RoleName(h.role)),
      Os := FromOptStr(h.os),
      Services := List(EncodeAll(h.services, EncodeService)),
      Tags := List(EncodeAll(h.tags, EncodeStr)),
      Sources := List(EncodeAll(h.sources, EncodeSource)),
      Packages := List(h.packages),
      Processes := List(h.processes),
      Containers := List(h.containers),
      HypervisorId := FromOptStr(h.hypervisorId),
      HostedVmIds := List(EncodeAll(h.hostedVmIds, EncodeStr)),
      FirstSeen := FromOptStr(h.firstSeen),
      LastSeen := FromOptStr(h.lastSeen),
      Extra := Mapping(h.extra)])
  }

  function DecodeRole(f: map<Key, Json>): Decoded<HostRole> {
    var s :- StrOr(f, Role, "unknown");
    if ParseRole(s).Some? then Ok(ParseRole(s).value) else Err(BadValue(s))
  }

  function DecodeHost(j: Json): Decoded<Host> {
    var f :- FieldsOf(j);
    var id :- NeedStr(f, Id);
    var addresses :- StrList(f, Addresses);
    var hostname :- OptStr(f, Hostname);
    var mac :- OptStr(f, Mac);
    var role :- DecodeRole(f);
    var os :- OptStr(f, Os);
    var serviceItems :- ItemsOf(f, Services);
    var services :- DecodeAll(serviceItems, DecodeService);
    var tags :- StrList(f, Tags);
    var sourceItems :- ItemsOf(f, Sources);
    var sources :- DecodeAll(sourceItems, DecodeSource);
    var packages :- ItemsOf(f, Packages);
    var processes :- ItemsOf(f, Processes);
    var containers :- ItemsOf(f, Containers);
    var hypervisorId :- OptStr(f, HypervisorId);
    var hostedVmIds :- StrList(f, HostedVmIds);
    var firstSeen :- OptStr(f, FirstSeen);
    var lastSeen :- OptStr(f, LastSeen);
    var extra :- ExtraIn(f);
    Ok(Host(id, addresses, hostname, mac, role, os, services, tags, sources, packages, processes, containers,
            hypervisorId, hostedVmIds, firstSeen, lastSeen, extra))
  }

  /** `f` holds what `EncodeHost(h)` writes. */
  ghost predicate HoldsHost(f: map<Key, Json>, h: Host) {
    && HoldsHostTexts(f, h)
    && ItemsOf(f, Packages) == Ok(h.packages)
    && ItemsOf(f, Processes) == Ok(h.processes)
    && ItemsOf(f, Containers) == Ok(h.containers)
    && ExtraIn(f) == Ok(h.extra)
    && HoldsHostLists(f, h)
  }

  ghost predicate HoldsHostTexts(f: map<Key, Json>, h: Host) {
    && NeedStr(f, Id) == Ok(h.id)
    && OptStr(f, Hostname) == Ok(h.hostname)
    && OptStr(f, Mac) == Ok(h.mac)
    && OptStr(f, Os) == Ok(h.os)
    && OptStr(f, HypervisorId) == Ok(h.hypervisorId)
    && OptStr(f, FirstSeen) == Ok(h.firstSeen)
    && OptStr(f, LastSeen) == Ok(h.lastSeen)
  }

  ghost predicate HoldsHostLists(f: map<Key, Json>, h: Host) {
    && StrList(f, Addresses) == Ok(h.addresses)
    && StrList(f, Tags) == Ok(h.tags)
    && StrList(f, HostedVmIds) == Ok(h.hostedVmIds)
    && DecodeRole(f) == Ok(h.role)
    && ItemsOf(f, Services).Ok? && DecodeAll(ItemsOf(f, Services).value, DecodeService) == Ok(h.services)
    && ItemsOf(f, Sources).Ok? && DecodeAll(ItemsOf(f, Sources).value, DecodeSource) == Ok(h.sources)
  }

  lemma {:induction false} EncodedHostHolds(h: Host)
    ensures EncodeHost(h).Record? && HoldsHost(EncodeHost(h).fields, h)
  {
    hide DecodeAll, EncodeAll, StrList, DecodeRole, HoldsHostLists, HoldsHostTexts;
    EncodedHostTexts(h);
    EncodedHostLists(h);
  }

  lemma {:induction false} EncodedHostTexts(h: Host)
    ensures HoldsHostTexts(EncodeHost(h).fields, h)
  {
    hide DecodeAll, EncodeAll, StrList, DecodeRole;
  }

  lemma {:induction false} EncodedHostLists(h: Host)
    ensures HoldsHostLists(EncodeHost(h).fields, h)
  {
    hide DecodeAll, EncodeAll, DecodeService, DecodeSource, StrList, ParseRole, RoleName, ParseSource, SourceName;
    var f := EncodeHost(h).fields;
    StrListRoundTrip(f, Addresses, h.addresses);
    StrListRoundTrip(f, Tags, h.tags);
    StrListRoundTrip(f, HostedVmIds, h.hostedVmIds);
    RoleNameRoundTrip(h.role, RoleName(h.role));
    ServicesRoundTrip(h.services);
    SourceRoundTrip();
    ListRoundTrip(h.sources, EncodeSource, DecodeSource);
  }

  lemma {:induction false} ServicesRoundTrip(services: seq<Service>)
    ensures DecodeAll(EncodeAll(services, EncodeService), DecodeService) == Ok(services)
  {
    assert Inverse(EncodeService, DecodeService) by {
      forall s { ServiceRoundTrip(s); }
    }
    ListRoundTrip(services, EncodeService, DecodeService);
  }

  lemma {:induction false} HostRoundTrip(h: Host)
    ensures DecodeHost(EncodeHost(h)) == Ok(h)
  {
    hide EncodeHost, DecodeAll, StrList, DecodeRole, DecodeService, DecodeSource;
    EncodedHostHolds(h);
  }

  // ---- Virtual machines and networks ----

  function EncodeVm(v: Vm): Json {
    Record(map[
      Id := Str(v.id),
      Name := Str(v.name),
      HypervisorId := Str(v.hypervisorId),
      Backend := Str(v.backend),
      PowerState := Str(PowerName(v.powerState)),
      Vcpus := FromOptInt(v.vcpus),
      MemoryMb := FromOptInt(v.memoryMb),
      DiskGb := FromOptReal(v.diskGb),
      GuestOs := FromOptStr(v.guestOs),
      Addresses := List(EncodeAll(v.addresses, EncodeStr)),
      MacAddresses := List(EncodeAll(v.macAddresses, EncodeStr)),
      HostId := FromOptStr(v.hostId),
      Tags := List(EncodeAll(v.tags, EncodeStr)),
      Extra := Mapping(v.extra)])
  }

  function DecodePower(f: map<Key, Json>): Decoded<Model.PowerState> {
    var s :- StrOr(f, PowerState, "unknown");
    if ParsePower(s).Some? then Ok(ParsePower(s).value) else Err(BadValue(s))
  }

  function DecodeVm(j: Json): Decoded<Vm> {
    var f :- FieldsOf(j);
    var id :- NeedStr(f, Id);
    var name :- NeedStr(f, Name);
    var hypervisorId :- NeedStr(f, HypervisorId);
    var backend :- NeedStr(f, Backend);
    var powerState :- DecodePower(f);
    var vcpus :- OptInt(f, Vcpus);
    var memoryMb :- OptInt(f, MemoryMb);
    var diskGb :- OptReal(f, DiskGb);
    var guestOs :- OptStr(f, GuestOs);
    var addresses :- StrList(f, Addresses);
    var macAddresses :- StrList(f, MacAddresses);
    var hostId :- OptStr(f, HostId);
    var tags :- StrList(f, Tags);
    var extra :- ExtraIn(f);
    Ok(Vm(id, name, hypervisorId, backend, powerState, vcpus, memoryMb, diskGb, guestOs, addresses, macAddresses,
          hostId, tags, extra))
  }

  /** `f` holds what `EncodeVm(v)` writes. */
  ghost predicate HoldsVm(f: map<Key, Json>, v: Vm) {
    && HoldsVmTexts(f, v)
    && OptInt(f, Vcpus) == Ok(v.vcpus)
    && OptInt(f, MemoryMb) == Ok(v.memoryMb)
    && OptReal(f, DiskGb) == Ok(v.diskGb)
    && ExtraIn(f) == Ok(v.extra)
    && HoldsVmLists(f, v)
  }

  ghost predicate HoldsVmTexts(f: map<Key, Json>, v: Vm) {
    && NeedStr(f, Id) == Ok(v.id)
    && NeedStr(f, Name) == Ok(v.name)
    && NeedStr(f, HypervisorId) == Ok(v.hypervisorId)
    && NeedStr(f, Backend) == Ok(v.backend)
    && OptStr(f, GuestOs) == Ok(v.guestOs)
    && OptStr(f, HostId) == Ok(v.hostId)
  }

  ghost predicate HoldsVmLists(f: map<Key, Json>, v: Vm) {
    && DecodePower(f) == Ok(v.powerState)
    && StrList(f, Addresses) == Ok(v.addresses)
    && StrList(f, MacAddresses) == Ok(v.macAddresses)
    && StrList(f, Tags) == Ok(v.tags)
  }

  lemma {:induction false} EncodedVmHolds(v: Vm)
    ensures EncodeVm(v).Record? && HoldsVm(EncodeVm(v).fields, v)
  {
    hide DecodeAll, EncodeAll, StrList, DecodePower, HoldsVmLists, HoldsVmTexts;
    EncodedVmTexts(v);
    EncodedVmLists(v);
  }

  lemma {:induction false} EncodedVmTexts(v: Vm)
    ensures HoldsVmTexts(EncodeVm(v).fields, v)
  {
    hide DecodeAll, EncodeAll, StrList, DecodePower;
  }

  lemma {:induction false} EncodedVmLists(v: Vm)
    ensures HoldsVmLists(EncodeVm(v).fields, v)
  {
    hide DecodeAll, EncodeAll, StrList, ParsePower, PowerName;
    var f := EncodeVm(v).fields;
    StrListRoundTrip(f, Addresses, v.addresses);
    StrListRoundTrip(f, MacAddresses, v.macAddresses);
    StrListRoundTrip(f, Tags, v.tags);
    PowerNameRoundTrip(v.powerState, PowerName(v.powerState));
  }

  lemma {:induction false} VmRoundTrip(v: Vm)
    ensures DecodeVm(EncodeVm(v)) == Ok(v)
  {
    hide EncodeVm, StrList, DecodePower;
    EncodedVmHolds(v);
  }

  function EncodeNet(n: Net): Json {
    Record(map[
      Cidr := Str(n.cidr),
      Name := FromOptStr(n.name),
      Vlan := FromOptInt(n.vlan),
      Description := FromOptStr(n.description),
      Extra := Mapping(n.extra)])
  }

  function DecodeNet(j: Json): Decoded<Net> {
    var f :- FieldsOf(j);
    var cidr :- NeedStr(f, Cidr);
    var name :- OptStr(f, Name);
    var vlan :- OptInt(f, Vlan);
    var description :- OptStr(f, Description);
    var extra :- ExtraIn(f);
    Ok(Net(cidr, name, vlan, description, extra))
  }

  lemma NetRoundTrip(n: Net)
    ensures DecodeNet(EncodeNet(n)) == Ok(n)
  {
  }

  // ---- The inventory ----

  const SCHEMA_VERSION: int := 1

  /** `Inventory.to_dict` */
  function EncodeInv(inv: Inv): Json {
    Record(map[
      SchemaVersion := Int(inv.schemaVersion),
      GeneratedAt := Str(inv.generatedAt),
      Networks := List(EncodeAll(inv.networks, EncodeNet)),
      Hosts := List(EncodeAll(Values(inv.hosts), EncodeHost)),
      Vms := List(EncodeAll(Values(inv.vms), EncodeVm))])
  }

  /** The dict a loop of `d[x.id] = x` builds. */
  function FileHosts(hosts: seq<Host>): seq<Entry<Host>> {
    if hosts == [] then []
    else
      var n := |hosts| - 1;
      Upsert(FileHosts(hosts[..n]), Entry(hosts[n].id, hosts[n]), EntryKey<Host>, TakeNew<Entry<Host>>)
  }

  function FileVms(vms: seq<Vm>): seq<Entry<Vm>> {
    if vms == [] then []
    else
      var n := |vms| - 1;
      Upsert(FileVms(vms[..n]), Entry(vms[n].id, vms[n]), EntryKey<Vm>, TakeNew<Entry<Vm>>)
  }

  /** `Inventory.from_dict`; `now` is the clock reading used when the stamp is missing. */
  function DecodeInv(j: Json, now: string): Decoded<Inv> {
    var f :- FieldsOf(j);
    var generatedAt :- StrOr(f, GeneratedAt, now);
    var schemaVersion :- IntOr(f, SchemaVersion, SCHEMA_VERSION);
    var netItems :- ItemsOf(f, Networks);
    var networks :- DecodeAll(netItems, DecodeNet);
    var hostItems :- ItemsOf(f, Hosts);
    var hosts :- DecodeAll(hostItems, DecodeHost);
    var vmItems :- ItemsOf(f, Vms);
    var vms :- DecodeAll(vmItems, DecodeVm);
    Ok(Inv(FileHosts(hosts), FileVms(vms), networks, generatedAt, schemaVersion))
  }

  /** Whatever was written, reading it back succeeds and re-files the records. */
  lemma {:induction false} DecodeEncoded(inv: Inv, now: string)
    ensures DecodeInv(EncodeInv(inv), now) ==
            Ok(inv.(hosts := FileHosts(Values(inv.hosts)), vms := FileVms(Values(inv.vms))))
  {
    hide EncodeNet, DecodeNet, EncodeHost, DecodeHost, EncodeVm, DecodeVm, EncodeAll, DecodeAll, FileHosts, FileVms;
    NetworksRoundTrip(inv.networks);
    HostsRoundTrip(Values(inv.hosts));
    VmsRoundTrip(Values(inv.vms));
  }

  lemma {:induction false} NetworksRoundTrip(networks: seq<Net>)
    ensures DecodeAll(EncodeAll(networks, EncodeNet), DecodeNet) == Ok(networks)
  {
    hide EncodeNet, DecodeNet;
    forall n
      ensures DecodeNet(EncodeNet(n)) == Ok(n)
    {
      NetRoundTrip(n);
    }
    ListRoundTrip(networks, EncodeNet, DecodeNet);
  }

  lemma {:induction false} HostsRoundTrip(hosts: seq<Host>)
    ensures DecodeAll(EncodeAll(hosts, EncodeHost), DecodeHost) == Ok(hosts)
  {
    hide EncodeHost, DecodeHost;
    forall h
      ensures DecodeHost(EncodeHost(h)) == Ok(h)
    {
      HostRoundTrip(h);
    }
    ListRoundTrip(hosts, EncodeHost, DecodeHost);
  }

  lemma {:induction false} VmsRoundTrip(vms: seq<Vm>)
    ensures DecodeAll(EncodeAll(vms, EncodeVm), DecodeVm) == Ok(vms)
  {
    hide EncodeVm, DecodeVm;
    forall v
      ensures DecodeVm(EncodeVm(v)) == Ok(v)
    {
      VmRoundTrip(v);
    }
    ListRoundTrip(vms, EncodeVm, DecodeVm);
  }

  lemma {:induction false} FileHostsFiled(hosts: seq<Host>)
    ensures IsDict(FileHosts(hosts)) && forall e :: e in FileHosts(hosts) ==> e.key == e.value.id
  {
    if hosts != [] {
      var n := |hosts| - 1;
      FileHostsFiled(hosts[..n]);
      UpsertDistinct(FileHosts(hosts[..n]), Entry(hosts[n].id, hosts[n]), EntryKey<Host>, TakeNew<Entry<Host>>);
    }
  }

  lemma {:induction false} FileVmsFiled(vms: seq<Vm>)
    ensures IsDict(FileVms(vms)) && forall e :: e in FileVms(vms) ==> e.key == e.value.id
  {
    if vms != [] {
      var n := |vms| - 1;
      FileVmsFiled(vms[..n]);
      UpsertDistinct(FileVms(vms[..n]), Entry(vms[n].id, vms[n]), EntryKey<Vm>, TakeNew<Entry<Vm>>);
    }
  }

  /** Everything `from_dict` returns is well formed, whatever tree it was given. */
  lemma {:induction false} DecodedIsWellFormed(j: Json, now: string)
    requires DecodeInv(j, now).Ok?
    ensures WellFormed(DecodeInv(j, now).value)
  {
    var f := j.fields;
    var hosts := DecodeAll(ItemsOf(f, Hosts).value, DecodeHost).value;
    var vms := DecodeAll(ItemsOf(f, Vms).value, DecodeVm).value;
    FileHostsFiled(hosts);
    FileVmsFiled(vms);
  }

  lemma {:induction false} RefileHosts(d: seq<Entry<Host>>)
    requires IsDict(d) && forall e :: e in d ==> e.key == e.value.id
    ensures FileHosts(Values(d)) == d
  {
    if d != [] {
      var n := |d| - 1;
      RefileHosts(d[..n]);
      assert Values(d)[..n] == Values(d[..n]);
      FindFront(d, EntryKey<Host>, d[n].key);
      FindDistinct(d, EntryKey<Host>, n);
      assert d == d[..n] + [d[n]];
    }
  }

  lemma {:induction false} RefileVms(d: seq<Entry<Vm>>)
    requires IsDict(d) && forall e :: e in d ==> e.key == e.value.id
    ensures FileVms(Values(d)) == d
  {
    if d != [] {
      var n := |d| - 1;
      RefileVms(d[..n]);
      assert Values(d)[..n] == Values(d[..n]);
      FindFront(d, EntryKey<Vm>, d[n].key);
      FindDistinct(d, EntryKey<Vm>, n);
      assert d == d[..n] + [d[n]];
    }
  }

  /** Saving and loading returns the same inventory exactly when every record is filed under its own id. */
  lemma {:induction false} InventoryRoundTripIff(inv: Inv, now: string)
    requires IsDict(inv.hosts) && IsDict(inv.vms)
    ensures DecodeInv(EncodeInv(inv), now) == Ok(inv) <==> FiledById(inv)
  {
    DecodeEncoded(inv, now);
    if FiledById(inv) {
      RefileHosts(inv.hosts);
      RefileVms(inv.vms);
    }
    if DecodeInv(EncodeInv(inv), now) == Ok(inv) {
      DecodedIsWellFormed(EncodeInv(inv), now);
    }
  }

  /** An inventory that does not survive: its one VM is filed under another id than its own. */
  lemma {:induction false} MisfiledIsRefiled(now: string)
    ensures var vm := Vm("a", "web", "hv", "proxmox", UnknownPower, None, None, None, None, [], [], None, [], []);
            var inv := Inv([], [Entry("b", vm)], [], now, SCHEMA_VERSION);
            DecodeInv(EncodeInv(inv), now) != Ok(inv)
  {
    hide EncodeInv, DecodeInv;
    var vm := Vm("a", "web", "hv", "proxmox", UnknownPower, None, None, None, None, [], [], None, [], []);
    var inv := Inv([], [Entry("b", vm)], [], now, SCHEMA_VERSION);
    assert inv.vms[0] in inv.vms && "a"[0] != "b"[0];
    InventoryRoundTripIff(inv, now);
  }
}
