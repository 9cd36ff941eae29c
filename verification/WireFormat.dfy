/** The stored format itself: which key carries what, what a missing key means, and what reading refuses. */
module WireFormat {
  import opened Codec
  import opened Json
  import opened KeyedLists
  import opened Model
  import opened Wrappers

  /** The strings roles, sources and power states are stored as. */
  lemma {:induction false} StoredNames()
    ensures RoleName(Unknown) == "unknown" && RoleName(Physical) == "physical" && RoleName(Hypervisor) == "hypervisor"
    ensures RoleName(VirtualMachine) == "vm" && RoleName(Container) == "container" && RoleName(Network) == "network"
    ensures RoleName(Nas) == "nas" && RoleName(Printer) == "printer"
    ensures SourceName(Icmp) == "icmp" && SourceName(Arp) == "arp" && SourceName(Tcp) == "tcp"
    ensures SourceName(Nmap) == "nmap" && SourceName(Virtualization) == "virtualization"
    ensures SourceName(Manual) == "manual"
    ensures PowerName(Running) == "running" && PowerName(Stopped) == "stopped" && PowerName(Paused) == "paused"
    ensures PowerName(UnknownPower) == "unknown"
  {
  }

  predicate HoldsText(f: map<Key, Json>, k: Key, s: Option<string>) {
    k in f && f[k] == match s case Some(text) => Str(text) case None => Null
  }

  predicate HoldsNumber(f: map<Key, Json>, k: Key, n: Option<int>) {
    k in f && f[k] == match n case Some(number) => Int(number) case None => Null
  }

  predicate HoldsMapping(f: map<Key, Json>, entries: seq<Entry<Json>>) {
    Extra in f && f[Extra] == Mapping(entries)
  }

  /** Every attribute of a service stands under its own key. */
  lemma {:induction false} ServiceKeysHold(s: Service)
    ensures EncodeService(s).Record?
    ensures var f := EncodeService(s).fields;
            && HoldsNumber(f, Port, Some(s.port)) && HoldsText(f, Protocol, Some(s.protocol))
            && HoldsText(f, Name, s.name) && HoldsText(f, Product, s.product) && HoldsText(f, Version, s.version)
            && HoldsText(f, State, Some(s.state)) && HoldsText(f, Banner, s.banner) && HoldsText(f, Source, s.source)
            && HoldsMapping(f, s.extra)
  {
  }

  lemma {:induction false} NetKeysHold(n: Net)
    ensures EncodeNet(n).Record?
    ensures var f := EncodeNet(n).fields;
            && HoldsText(f, Cidr, Some(n.cidr)) && HoldsText(f, Name, n.name) && HoldsNumber(f, Vlan, n.vlan)
            && HoldsText(f, Description, n.description) && HoldsMapping(f, n.extra)
  {
  }

  /** A list of encoded records, in order. */
  ghost predicate HoldsAll<T>(f: map<Key, Json>, k: Key, xs: seq<T>, encode: T -> Json) {
    && k in f && f[k].List? && |f[k].items| == |xs|
    && forall i :: 0 <= i < |xs| ==> f[k].items[i] == encode(xs[i])
  }

  lemma {:induction false} EncodedInOrder<T>(xs: seq<T>, encode: T -> Json)
    ensures var items := EncodeAll(xs, encode);
            |items| == |xs| && forall i :: 0 <= i < |xs| ==> items[i] == encode(xs[i])
  {
    if xs != [] {
      EncodedInOrder(xs[1..], encode);
    }
  }

  /** The inventory stores the records of its dicts, in order, without the keys they are filed under. */
  lemma {:induction false} InventoryKeysHold(inv: Inv)
    ensures EncodeInv(inv).Record?
    ensures var f := EncodeInv(inv).fields;
            && HoldsNumber(f, SchemaVersion, Some(inv.schemaVersion))
            && HoldsText(f, GeneratedAt, Some(inv.generatedAt))
            && HoldsAll(f, Networks, inv.networks, EncodeNet)
            && HoldsAll(f, Hosts, Values(inv.hosts), EncodeHost) && HoldsAll(f, Vms, Values(inv.vms), EncodeVm)
  {
    hide EncodeNet, EncodeHost, EncodeVm, EncodeAll;
    EncodedInOrder(inv.networks, EncodeNet);
    EncodedInOrder(Values(inv.hosts), EncodeHost);
    EncodedInOrder(Values(inv.vms), EncodeVm);
  }

  /** Of several stored records of one id the last one is read. */
  lemma {:induction false} LastHostIsRead(hosts: seq<Host>, i: nat)
    requires i < |hosts| && forall j :: i < j < |hosts| ==> hosts[j].id != hosts[i].id
    ensures Get(FileHosts(hosts), EntryKey<Host>, hosts[i].id) == Some(Entry(hosts[i].id, hosts[i]))
  {
    var n := |hosts| - 1;
    UpsertGet(FileHosts(hosts[..n]), Entry(hosts[n].id, hosts[n]), EntryKey<Host>, TakeNew<Entry<Host>>, hosts[i].id);
    if i < n {
      LastHostIsRead(hosts[..n], i);
    }
  }

  lemma {:induction false} LastVmIsRead(vms: seq<Vm>, i: nat)
    requires i < |vms| && forall j :: i < j < |vms| ==> vms[j].id != vms[i].id
    ensures Get(FileVms(vms), EntryKey<Vm>, vms[i].id) == Some(Entry(vms[i].id, vms[i]))
  {
    var n := |vms| - 1;
    UpsertGet(FileVms(vms[..n]), Entry(vms[n].id, vms[n]), EntryKey<Vm>, TakeNew<Entry<Vm>>, vms[i].id);
    if i < n {
      LastVmIsRead(vms[..n], i);
    }
  }

  /** What reading makes of records that carry only what they must. */
  lemma {:induction false} Defaults(
      port: int, id: string, name: string, hypervisor: string, backend: string, now: string)
    ensures DecodeService(Record(map[Port := Int(port)])) ==
            Ok(Service(port, "tcp", None, None, None, "open", None, None, []))
    ensures DecodeHost(Record(map[Id := Str(id)])) ==
            Ok(Host(id, [], None, None, Unknown, None, [], [], [], [], [], [], None, [], None, None, []))
    ensures DecodeVm(Record(map[
              Id := Str(id), Name := Str(name), HypervisorId := Str(hypervisor), Backend := Str(backend)])) ==
            Ok(Vm(id, name, hypervisor, backend, UnknownPower, None, None, None, None, [], [], None, [], []))
    ensures DecodeNet(Record(map[Cidr := Str(name)])) == Ok(Net(name, None, None, None, []))
    ensures DecodeInv(Record(map[]), now) == Ok(Inv([], [], [], now, 1))
  {
    hide DecodeHost, DecodeVm;
    DefaultHost(id);
    DefaultVm(id, name, hypervisor, backend);
  }

  lemma {:induction false} DefaultHost(id: string)
    ensures DecodeHost(Record(map[Id := Str(id)])) ==
            Ok(Host(id, [], None, None, Unknown, None, [], [], [], [], [], [], None, [], None, None, []))
  {
    var f := map[Id := Str(id)];
    assert StrList(f, Addresses) == Ok([]) && StrList(f, Tags) == Ok([]) && StrList(f, HostedVmIds) == Ok([]);
    assert DecodeRole(f) == Ok(Unknown);
  }

  lemma {:induction false} DefaultVm(id: string, name: string, hypervisor: string, backend: string)
    ensures DecodeVm(Record(map[
              Id := Str(id), Name := Str(name), HypervisorId := Str(hypervisor), Backend := Str(backend)])) ==
            Ok(Vm(id, name, hypervisor, backend, UnknownPower, None, None, None, None, [], [], None, [], []))
  {
    var f := map[Id := Str(id), Name := Str(name), HypervisorId := Str(hypervisor), Backend := Str(backend)];
    assert StrList(f, Addresses) == Ok([]) && StrList(f, MacAddresses) == Ok([]) && StrList(f, Tags) == Ok([]);
    PowerNameRoundTrip(UnknownPower, "unknown");
    assert DecodePower(f) == Ok(UnknownPower);
  }

  /** A record without what it must carry, or with a role nobody knows, is refused. */
  lemma {:induction false} Refusals(role: string, id: string)
    ensures DecodeService(Record(map[])) == Err(MissingKey(Port))
    ensures DecodeHost(Record(map[])) == Err(MissingKey(Id))
    ensures DecodeVm(Record(map[])) == Err(MissingKey(Id))
    ensures DecodeNet(Record(map[])) == Err(MissingKey(Cidr))
    ensures (forall r :: role != RoleName(r)) ==>
              DecodeHost(Record(map[Id := Str(id), Role := Str(role)])) == Err(BadValue(role))
  {
    var f := map[Id := Str(id), Role := Str(role)];
    assert StrList(f, Addresses) == Ok([]);
    if forall r :: role != RoleName(r) {
      UnknownRole(role);
    }
  }

  lemma {:induction false} UnknownRole(role: string)
    requires forall r :: role != RoleName(r)
    ensures ParseRole(role) == None
  {
    if ParseRole(role).Some? {
      RoleNameRoundTrip(ParseRole(role).value, role);
    }
  }
}
