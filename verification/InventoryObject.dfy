/** The `Inventory` object: its methods, loop by loop, proved against the state transformers of `Inventories`. */
module InventoryObject {
  import opened HostMerge
  import opened Json
  import opened KeyedLists
  import opened Model
  import opened OrderedSets
  import opened Wrappers
  import I = Inventories

  /** `Host.add_service`: replace in place by index, or append. */
  method AddService(services: seq<Service>, service: Service) returns (r: seq<Service>)
    ensures r == AddServices(services, [service])
    ensures forall protocol, port ::
              Get(r, PortOf, (protocol, port)) ==
              if service.protocol == protocol && service.port == port then Some(service)
              else Get(services, PortOf, (protocol, port))
  {
    assert [service][..0] == [];
    assert AddServices(services, []) == services;
    forall protocol, port
      ensures Get(AddServices(services, [service]), PortOf, (protocol, port)) ==
              if service.protocol == protocol && service.port == port then Some(service)
              else Get(services, PortOf, (protocol, port))
    {
      AddedServices(services, [service], protocol, port);
      assert [service][0] == service;
    }
    var i := 0;
    while i < |services|
      invariant 0 <= i <= |services|
      invariant forall j :: 0 <= j < i ==> ServiceKey(services[j]) != ServiceKey(service)
    {
      if ServiceKey(services[i]) == ServiceKey(service) {
        FindIs(services, ServiceKey, ServiceKey(service), i);
        return services[i := service];
      }
      i := i + 1;
    }
    FindIs(services, ServiceKey, ServiceKey(service), |services|);
    return services + [service];
  }

  /** The service loop of `_merge_host`. */
  method AddEach(services: seq<Service>, more: seq<Service>) returns (r: seq<Service>)
    ensures r == AddServices(services, more)
  {
    r := services;
    assert more[..0] == [];
    for i := 0 to |more|
      invariant r == AddServices(services, more[..i])
    {
      UpsertAllConcat(services, more[..i], [more[i]], ServiceKey, TakeNew);
      assert more[..i + 1] == more[..i] + [more[i]];
      r := AddService(r, more[i]);
    }
    assert more[..|more|] == more;
  }

  /** The stamps, the attribute loop and the role of `_merge_host`. */
  method MergeScalars(target: Host, incoming: Host, now: string) returns (merged: Host)
    ensures var full := MergeHost(target, incoming, now);
            merged == target.(lastSeen := full.lastSeen, firstSeen := full.firstSeen, hostname := full.hostname,
                              mac := full.mac, os := full.os, hypervisorId := full.hypervisorId, role := full.role)
  {
    var firstSeen, role := target.firstSeen, target.role;
    if !Truthy(firstSeen) { firstSeen := incoming.firstSeen; }
    if incoming.role != Unknown { role := incoming.role; }
    var hostname := SetIfTruthy(target.hostname, incoming.hostname);
    var mac := SetIfTruthy(target.mac, incoming.mac);
    var os := SetIfTruthy(target.os, incoming.os);
    var hypervisorId := SetIfTruthy(target.hypervisorId, incoming.hypervisorId);
    merged := target.(lastSeen := Some(now), firstSeen := firstSeen, hostname := hostname, mac := mac, os := os,
                      hypervisorId := hypervisorId, role := role);
  }

  /** One turn of the attribute loop. */
  method SetIfTruthy(old_: Option<string>, val: Option<string>) returns (r: Option<string>)
    ensures r == Newer(old_, val)
  {
    r := old_;
    if Truthy(val) { r := val; }
  }

  /** `_merge_host`. */
  method MergeInto(target: Host, incoming: Host, now: string) returns (merged: Host)
    ensures merged == MergeHost(target, incoming, now)
  {
    merged := MergeScalars(target, incoming, now);
    var services := AddEach(target.services, incoming.services);
    var packages, processes, containers := target.packages, target.processes, target.containers;
    if incoming.packages != [] { packages := incoming.packages; }
    if incoming.processes != [] { processes := incoming.processes; }
    if incoming.containers != [] { containers := incoming.containers; }
    merged := merged.(
      addresses := Union(target.addresses, incoming.addresses),
      tags := Union(target.tags, incoming.tags),
      hostedVmIds := Union(target.hostedVmIds, incoming.hostedVmIds),
      sources := Union(target.sources, incoming.sources),
      services := services,
      packages := packages, processes := processes, containers := containers,
      extra := Updated(target.extra, incoming.extra));
  }

  /** A dict assignment: the VM's id answers with the VM, other keys as before, and keys keep their order. */
  lemma {:induction false} VmStored(vms: seq<Entry<Vm>>, vm: Vm)
    ensures var r := Upsert(vms, Entry(vm.id, vm), EntryKey<Vm>, TakeNew<Entry<Vm>>);
            && (forall id :: Get(r, EntryKey<Vm>, id) ==
                  if id == vm.id then Some(Entry(vm.id, vm)) else Get(vms, EntryKey<Vm>, id))
            && KeysOf(r, EntryKey<Vm>) ==
               KeysOf(vms, EntryKey<Vm>) + if vm.id in KeysOf(vms, EntryKey<Vm>) then [] else [vm.id]
  {
    var r := Upsert(vms, Entry(vm.id, vm), EntryKey<Vm>, TakeNew<Entry<Vm>>);
    forall id
      ensures Get(r, EntryKey<Vm>, id) == if id == vm.id then Some(Entry(vm.id, vm)) else Get(vms, EntryKey<Vm>, id)
    {
      UpsertGet(vms, Entry(vm.id, vm), EntryKey<Vm>, TakeNew<Entry<Vm>>, id);
    }
    UpsertKeys(vms, Entry(vm.id, vm), EntryKey<Vm>, TakeNew<Entry<Vm>>);
    HasKeyIffIn(vms, EntryKey<Vm>, vm.id);
  }

  /** `Inventory`. Dict values are host and VM records, not references to them. */
  class Inventory {
    var hosts: seq<Entry<Host>>
    var vms: seq<Entry<Vm>>
    var networks: seq<Net>
    var generatedAt: string
    var schemaVersion: int

    function Value(): Inv
      reads this
    {
      Inv(hosts, vms, networks, generatedAt, schemaVersion)
    }

    constructor (inv: Inv)
      ensures Value() == inv
    {
      hosts, vms, networks := inv.hosts, inv.vms, inv.networks;
      generatedAt, schemaVersion := inv.generatedAt, inv.schemaVersion;
    }

    method UpsertHost(host: Host, now: string) returns (stored: Host)
      modifies this`hosts
      ensures hosts == I.UpsertHost(old(hosts), host, now)
      ensures Get(hosts, EntryKey<Host>, host.id) == Some(Entry(host.id, stored))
    {
      var i := Find(hosts, EntryKey<Host>, host.id);
      if i == |hosts| {
        var first := OrElse(host.firstSeen, Some(now));
        stored := host.(firstSeen := first);
        stored := stored.(lastSeen := OrElse(stored.lastSeen, stored.firstSeen));
        hosts := hosts + [Entry(host.id, stored)];
      } else {
        stored := MergeInto(hosts[i].value, host, now);
        hosts := hosts[i := Entry(hosts[i].key, stored)];
      }
      FindIs(hosts, EntryKey<Host>, host.id, i);
    }

    method UpsertVm(vm: Vm)
      modifies this`vms
      ensures vms == Upsert(old(vms), Entry(vm.id, vm), EntryKey<Vm>, TakeNew<Entry<Vm>>)
      ensures Get(vms, EntryKey<Vm>, vm.id) == Some(Entry(vm.id, vm))
      ensures forall id :: id != vm.id ==> Get(vms, EntryKey<Vm>, id) == Get(old(vms), EntryKey<Vm>, id)
      ensures KeysOf(vms, EntryKey<Vm>) ==
              KeysOf(old(vms), EntryKey<Vm>) + if vm.id in KeysOf(old(vms), EntryKey<Vm>) then [] else [vm.id]
    {
      ghost var before := vms;
      var i := Find(vms, EntryKey<Vm>, vm.id);
      if i < |vms| {
        vms := vms[i := Entry(vm.id, vm)];
      } else {
        vms := vms + [Entry(vm.id, vm)];
      }
      VmStored(before, vm);
    }

    method AddNetwork(network: Net)
      modifies this`networks
      ensures networks == I.AddNetworks(old(networks), [network])
    {
      assert [network][..0] == [];
      assert I.AddNetworks(networks, []) == networks;
      if !HasKey(networks, NetCidr, network.cidr) {
        networks := networks + [network];
      }
    }

    method AddNetworks(more: seq<Net>)
      modifies this`networks
      ensures networks == I.AddNetworks(old(networks), more)
    {
      assert more[..0] == [];
      for i := 0 to |more|
        invariant networks == I.AddNetworks(old(networks), more[..i])
      {
        UpsertAllConcat(old(networks), more[..i], [more[i]], NetCidr, TakeOld);
        assert more[..i + 1] == more[..i] + [more[i]];
        AddNetwork(more[i]);
      }
      assert more[..|more|] == more;
    }

    method UpsertHosts(more: seq<Host>, clock: nat -> string)
      modifies this`hosts
      ensures hosts == I.UpsertHosts(old(hosts), more, clock)
    {
      for i := 0 to |more|
        invariant hosts == I.UpsertHosts(old(hosts), more[..i], clock)
      {
        assert more[..i + 1][..i] == more[..i];
        var _ := UpsertHost(more[i], clock(i));
      }
      assert more[..|more|] == more;
    }

    method UpsertVms(more: seq<Vm>)
      modifies this`vms
      ensures vms == I.UpsertVms(old(vms), more)
    {
      for i := 0 to |more|
        invariant vms == I.UpsertVms(old(vms), more[..i])
      {
        assert more[..i + 1][..i] == more[..i];
        UpsertVm(more[i]);
      }
      assert more[..|more|] == more;
    }

    /** `merge`: the three loops, networks first. */
    method Merge(other: Inventory, clock: nat -> string)
      modifies this
      ensures Value() == I.MergeInv(old(Value()), old(other.Value()), clock)
    {
      var hs, vs := Values(other.hosts), Values(other.vms);
      AddNetworks(other.networks);
      UpsertHosts(hs, clock);
      UpsertVms(vs);
    }
  }
}
