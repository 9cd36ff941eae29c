/** The aggregate: upserts, merging two inventories, and the laws of merging. */
module Inventories {
  import opened HostMerge
  import opened Json
  import opened KeyedLists
  import opened Model
  import opened Wrappers

  // ---- The state transformers ----

  /** A host entering the inventory: its empty stamps are filled. */
  function Stamped(h: Host, now: string): Host {
    var first := OrElse(h.firstSeen, Some(now));
    h.(firstSeen := first, lastSeen := OrElse(h.lastSeen, first))
  }

  /** `upsert_host` on the `hosts` dict; `now` is what the one clock reading of the call returns. */
  function UpsertHost(hosts: seq<Entry<Host>>, host: Host, now: string): seq<Entry<Host>> {
    var i := Find(hosts, EntryKey<Host>, host.id);
    if i < |hosts| then hosts[i := Entry(hosts[i].key, MergeHost(hosts[i].value, host, now))]
    else hosts + [Entry(host.id, Stamped(host, now))]
  }

  function UpsertHosts(hosts: seq<Entry<Host>>, more: seq<Host>, clock: nat -> string): seq<Entry<Host>> {
    if more == [] then hosts
    else
      var n := |more| - 1;
      UpsertHost(UpsertHosts(hosts, more[..n], clock), more[n], clock(n))
  }

  /** `upsert_vm`, in order. */
  function UpsertVms(vms: seq<Entry<Vm>>, more: seq<Vm>): seq<Entry<Vm>> {
    if more == [] then vms
    else
      var n := |more| - 1;
      Upsert(UpsertVms(vms, more[..n]), Entry(more[n].id, more[n]), EntryKey<Vm>, TakeNew<Entry<Vm>>)
  }

  /** `add_network`, in order: the first network of a cidr stays. */
  function AddNetworks(networks: seq<Net>, more: seq<Net>): seq<Net> {
    UpsertAll(networks, more, NetCidr, TakeOld<Net>)
  }

  /** `target.merge(other)`; `clock(i)` is read while the i-th host of `other` is upserted. */
  function MergeInv(target: Inv, other: Inv, clock: nat -> string): Inv {
    target.(
      networks := AddNetworks(target.networks, other.networks),
      hosts := UpsertHosts(target.hosts, Values(other.hosts), clock),
      vms := UpsertVms(target.vms, Values(other.vms)))
  }
}
