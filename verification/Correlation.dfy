/** Cross-linking virtual machines with discovered hosts: `_correlate`. */
module Correlation {
  import opened Inventories
  import opened Json
  import opened KeyedLists
  import opened Model
  import opened Repository
  import opened Runs
  import opened ScanHistory
  import opened Wrappers
  import O = InventoryObject

  /** The position `ip_to_host` maps an address to: the last host listing it. */
  function Owner(hosts: seq<Entry<Host>>, addr: string): (r: Option<nat>)
    ensures r.Some? ==> r.value < |hosts| && addr in hosts[r.value].value.addresses
    ensures forall j :: (if r.Some? then r.value + 1 else 0) <= j < |hosts| ==> addr !in hosts[j].value.addresses
  {
    if hosts == [] then None
    else
      var n := |hosts| - 1;
      if addr in hosts[n].value.addresses then Some(n) else Owner(hosts[..n], addr)
  }

  /** The owner of the first address that has one. */
  function FirstOwner(hosts: seq<Entry<Host>>, addresses: seq<string>): (r: Option<nat>)
    ensures r.Some? ==> r.value < |hosts|
  {
    if addresses == [] then None
    else if Owner(hosts, addresses[0]).Some? then Owner(hosts, addresses[0])
    else FirstOwner(hosts, addresses[1..])
  }

  function LinkedVm(e: Entry<Vm>, hostId: string): Entry<Vm> {
    Entry(e.key, e.value.(hostId := Some(hostId)))
  }

  function LinkedHost(e: Entry<Host>, hypervisorId: string): Entry<Host> {
    var h := e.value;
    var role := if h.role == Unknown || h.role == Physical then VirtualMachine else h.role;
    Entry(e.key, h.(hypervisorId := Some(hypervisorId), role := role))
  }

  /** One turn of the loop over VMs. */
  function Link(inv: Inv, i: nat): Inv
    requires i < |inv.vms|
  {
    var vm := inv.vms[i];
    var owner := FirstOwner(inv.hosts, vm.value.addresses);
    if owner.None? then inv
    else
      var h := owner.value;
      inv.(vms := inv.vms[i := LinkedVm(vm, inv.hosts[h].value.id)],
           hosts := inv.hosts[h := LinkedHost(inv.hosts[h], vm.value.hypervisorId)])
  }

  /** The inventory after the first `n` VMs. */
  function LinkedUpTo(inv: Inv, n: nat): (r: Inv)
    requires n <= |inv.vms|
    ensures |r.vms| == |inv.vms| && |r.hosts| == |inv.hosts|
  {
    if n == 0 then inv else Link(LinkedUpTo(inv, n - 1), n - 1)
  }

  /** `_correlate` */
  function Correlated(inv: Inv): Inv {
    LinkedUpTo(inv, |inv.vms|)
  }

  /** The dict comprehension `{addr: host for host in hosts for addr in host.addresses}`. */
  method IndexAddresses(hosts: seq<Entry<Host>>) returns (ipToHost: map<string, nat>)
    ensures forall a :: a in ipToHost <==> Owner(hosts, a).Some?
    ensures forall a :: a in ipToHost ==> ipToHost[a] == Owner(hosts, a).value
  {
    ipToHost := map[];
    assert hosts[..0] == [];
    for k := 0 to |hosts|
      invariant forall a :: a in ipToHost <==> Owner(hosts[..k], a).Some?
      invariant forall a :: a in ipToHost ==> ipToHost[a] == Owner(hosts[..k], a).value
    {
      ipToHost := IndexHost(ipToHost, hosts[k].value.addresses, k);
      assert hosts[..k + 1][..k] == hosts[..k];
    }
    assert hosts[..|hosts|] == hosts;
  }

  /** The inner clause of the comprehension: every address of one host. */
  method IndexHost(before: map<string, nat>, addresses: seq<string>, k: nat) returns (ipToHost: map<string, nat>)
    ensures forall a :: a in ipToHost <==> a in before || a in addresses
    ensures forall a :: a in ipToHost ==> ipToHost[a] == if a in addresses then k else before[a]
  {
    ipToHost := before;
    for j := 0 to |addresses|
      invariant forall a :: a in ipToHost <==> a in before || a in addresses[..j]
      invariant forall a :: a in ipToHost ==> ipToHost[a] == if a in addresses[..j] then k else before[a]
    {
      assert addresses[..j + 1] == addresses[..j] + [addresses[j]];
      ipToHost := ipToHost[addresses[j] := k];
    }
    assert addresses[..|addresses|] == addresses;
  }

  /** The address loop of one VM, up to its `break`. */
  method LinkVm(inventory: O.Inventory, i: nat, ipToHost: map<string, nat>)
    requires i < |inventory.vms|
    requires forall a :: a in ipToHost <==> Owner(inventory.hosts, a).Some?
    requires forall a :: a in ipToHost ==> ipToHost[a] == Owner(inventory.hosts, a).value
    modifies inventory`hosts, inventory`vms
    ensures inventory.Value() == Link(old(inventory.Value()), i)
  {
    var vm := inventory.vms[i];
    var addresses := vm.value.addresses;
    assert addresses[0..] == addresses;
    var j := 0;
    while j < |addresses|
      invariant j <= |addresses|
      invariant FirstOwner(inventory.hosts, addresses) == FirstOwner(inventory.hosts, addresses[j..])
      invariant inventory.Value() == old(inventory.Value())
    {
      if addresses[j] in ipToHost {
        var h := ipToHost[addresses[j]];
        inventory.vms := inventory.vms[i := LinkedVm(vm, inventory.hosts[h].value.id)];
        inventory.hosts := inventory.hosts[h := LinkedHost(inventory.hosts[h], vm.value.hypervisorId)];
        return;
      }
      assert addresses[j..][1..] == addresses[j + 1..];
      j := j + 1;
    }
  }

  method Correlate(inventory: O.Inventory)
    modifies inventory
    ensures inventory.Value() == Correlated(old(inventory.Value()))
  {
    ghost var start := inventory.Value();
    var ipToHost := IndexAddresses(inventory.hosts);
    var n := |inventory.vms|;
    for i := 0 to n
      invariant n == |start.vms| && inventory.Value() == LinkedUpTo(start, i)
    {
      OwnersUnmoved(start, i);
      LinkVm(inventory, i, ipToHost);
    }
  }

  // ---- Closed form ----

  ghost predicate SameAddresses(a: seq<Entry<Host>>, b: seq<Entry<Host>>) {
    |a| == |b| && forall j :: 0 <= j < |a| ==> a[j].value.addresses == b[j].value.addresses
  }

  lemma {:induction false} OwnerByAddresses(a: seq<Entry<Host>>, b: seq<Entry<Host>>, addr: string)
    requires SameAddresses(a, b)
    ensures Owner(a, addr) == Owner(b, addr)
  {
    if a != [] {
      OwnerByAddresses(a[..|a| - 1], b[..|b| - 1], addr);
    }
  }

  lemma {:induction false} FirstOwnerByAddresses(a: seq<Entry<Host>>, b: seq<Entry<Host>>, addresses: seq<string>)
    requires SameAddresses(a, b)
    ensures FirstOwner(a, addresses) == FirstOwner(b, addresses)
  {
    if addresses != [] {
      OwnerByAddresses(a, b, addresses[0]);
      FirstOwnerByAddresses(a, b, addresses[1..]);
    }
  }

  /** The host position VM `i` is linked to, judged on the inventory before correlation. */
  function Target(inv: Inv, i: nat): (r: Option<nat>)
    requires i < |inv.vms|
    ensures r.Some? ==> r.value < |inv.hosts|
  {
    FirstOwner(inv.hosts, inv.vms[i].value.addresses)
  }

  /** One more than the last of the first `n` VMs linked to host `h`, 0 when there is none. */
  function LastLinked(inv: Inv, h: nat, n: nat): (r: nat)
    requires n <= |inv.vms|
    ensures r <= n && (r > 0 ==> Target(inv, r - 1) == Some(h))
    ensures forall i :: r <= i < n ==> Target(inv, i) != Some(h)
  {
    if n == 0 then 0 else if Target(inv, n - 1) == Some(h) then n else LastLinked(inv, h, n - 1)
  }

  function VmAfter(inv: Inv, i: nat, n: nat): Entry<Vm>
    requires i < |inv.vms|
  {
    if i < n && Target(inv, i).Some? then LinkedVm(inv.vms[i], inv.hosts[Target(inv, i).value].value.id) else inv.vms[i]
  }

  function HostAfter(inv: Inv, h: nat, n: nat): Entry<Host>
    requires h < |inv.hosts| && n <= |inv.vms|
  {
    var last := LastLinked(inv, h, n);
    if last > 0 then LinkedHost(inv.hosts[h], inv.vms[last - 1].value.hypervisorId) else inv.hosts[h]
  }

  /** `r` is `inv` with its first `n` VMs linked: each to its target, each host carrying the last VM's hypervisor. */
  ghost predicate IsLinked(inv: Inv, r: Inv, n: nat)
    requires n <= |inv.vms|
  {
    && r == inv.(vms := r.vms, hosts := r.hosts)
    && |r.vms| == |inv.vms| && (forall i :: 0 <= i < |inv.vms| ==> r.vms[i] == VmAfter(inv, i, n))
    && |r.hosts| == |inv.hosts| && (forall h :: 0 <= h < |inv.hosts| ==> r.hosts[h] == HostAfter(inv, h, n))
  }

  lemma {:induction false} LinkedKeepsAddresses(inv: Inv, r: Inv, n: nat)
    requires n <= |inv.vms| && IsLinked(inv, r, n)
    ensures SameAddresses(r.hosts, inv.hosts)
  {
    forall h | 0 <= h < |inv.hosts|
      ensures r.hosts[h].value.addresses == inv.hosts[h].value.addresses
    {
      assert r.hosts[h] == HostAfter(inv, h, n);
    }
  }

  lemma {:induction false} LinkOneMore(inv: Inv, b: Inv, n: nat)
    requires n < |inv.vms| && IsLinked(inv, b, n)
    ensures IsLinked(inv, Link(b, n), n + 1)
  {
    hide FirstOwner, Owner;
    var r, target := Link(b, n), Target(inv, n);
    assert b.vms[n] == VmAfter(inv, n, n) == inv.vms[n];
    LinkedKeepsAddresses(inv, b, n);
    FirstOwnerByAddresses(b.hosts, inv.hosts, inv.vms[n].value.addresses);
    assert FirstOwner(b.hosts, b.vms[n].value.addresses) == target;
    if target.Some? {
      assert b.hosts[target.value] == HostAfter(inv, target.value, n);
      LinkedTwice(inv.hosts[target.value], inv.vms[n].value.hypervisorId);
    }
    forall i | 0 <= i < |inv.vms|
      ensures r.vms[i] == VmAfter(inv, i, n + 1)
    {
      assert b.vms[i] == VmAfter(inv, i, n);
    }
    forall h | 0 <= h < |inv.hosts|
      ensures r.hosts[h] == HostAfter(inv, h, n + 1)
    {
      assert b.hosts[h] == HostAfter(inv, h, n);
    }
  }

  /** Only the last link of a host shows. */
  lemma LinkedTwice(e: Entry<Host>, last: string)
    ensures forall first :: LinkedHost(LinkedHost(e, first), last) == LinkedHost(e, last)
  {
  }

  lemma {:induction false} LinkedUpToIs(inv: Inv, n: nat)
    requires n <= |inv.vms|
    ensures IsLinked(inv, LinkedUpTo(inv, n), n)
  {
    hide IsLinked, Link;
    if n == 0 {
      NothingLinked(inv);
    } else {
      LinkedUpToIs(inv, n - 1);
      LinkOneMore(inv, LinkedUpTo(inv, n - 1), n - 1);
    }
  }

  lemma {:induction false} NothingLinked(inv: Inv)
    ensures IsLinked(inv, inv, 0)
  {
    hide Target, FirstOwner;
  }

  lemma {:induction false} OwnersUnmoved(inv: Inv, n: nat)
    requires n <= |inv.vms|
    ensures forall a :: Owner(LinkedUpTo(inv, n).hosts, a) == Owner(inv.hosts, a)
  {
    LinkedUpToIs(inv, n);
    var r := LinkedUpTo(inv, n);
    LinkedKeepsAddresses(inv, r, n);
    forall a
      ensures Owner(r.hosts, a) == Owner(inv.hosts, a)
    {
      OwnerByAddresses(r.hosts, inv.hosts, a);
    }
  }

  // ---- Referential integrity ----

  /** `after` is `before` as a guest of `hypervisorId`: a VM unless it had a stronger role, and otherwise unchanged. */
  ghost predicate Carries(before: Entry<Host>, after: Entry<Host>, hypervisorId: string) {
    var b, a := before.value, after.value;
    && after.key == before.key
    && a.hypervisorId == Some(hypervisorId)
    && (b.role == Unknown || b.role == Physical ==> a.role == VirtualMachine)
    && (b.role != Unknown && b.role != Physical ==> a.role == b.role)
    && a == b.(hypervisorId := a.hypervisorId, role := a.role)
  }

  /** A VM's target is the last host listing the first of its addresses that any host lists. */
  lemma {:induction false} TargetIsFirst(hosts: seq<Entry<Host>>, addresses: seq<string>, k: nat, h: nat)
    requires k < |addresses| && h < |hosts| && addresses[k] in hosts[h].value.addresses
    requires forall i :: h < i < |hosts| ==> addresses[k] !in hosts[i].value.addresses
    requires forall j, i :: 0 <= j < k && 0 <= i < |hosts| ==> addresses[j] !in hosts[i].value.addresses
    ensures FirstOwner(hosts, addresses) == Some(h)
  {
    if k == 0 {
      OwnerIs(hosts, addresses[0], h);
    } else {
      assert Owner(hosts, addresses[0]).None?;
      TargetIsFirst(hosts, addresses[1..], k - 1, h);
    }
  }

  lemma {:induction false} OwnerIs(hosts: seq<Entry<Host>>, addr: string, h: nat)
    requires h < |hosts| && addr in hosts[h].value.addresses
    requires forall i :: h < i < |hosts| ==> addr !in hosts[i].value.addresses
    ensures Owner(hosts, addr) == Some(h)
  {
    var r := Owner(hosts, addr);
    assert r.Some? ==> !(r.value < h) && !(h < r.value);
  }

  /** Every link of a VM resolves to a host of the inventory. */
  ghost predicate LinksResolve(inv: Inv) {
    forall i :: 0 <= i < |inv.vms| && inv.vms[i].value.hostId.Some? ==>
      HasKey(inv.hosts, EntryKey<Host>, inv.vms[i].value.hostId.value)
  }

  /**
   * After correlation every VM owning an address of some host names the host of its first such address, which is in
   * the inventory; the others keep what they had. Every host linked by some VM carries the hypervisor of the last
   * one, and is a VM itself unless its role was proven before; the others are untouched.
   */
  lemma {:induction false} CorrelationLinks(inv: Inv)
    requires WellFormed(inv)
    ensures var r := Correlated(inv);
            && |r.vms| == |inv.vms| && |r.hosts| == |inv.hosts|
            && (forall i :: 0 <= i < |inv.vms| ==>
                  match Target(inv, i)
                  case None => r.vms[i] == inv.vms[i]
                  case Some(h) =>
                    && r.vms[i].value.hostId == Some(r.hosts[h].value.id)
                    && r.hosts[h].key == r.hosts[h].value.id
                    && r.vms[i] == Entry(inv.vms[i].key, inv.vms[i].value.(hostId := r.vms[i].value.hostId)))
            && (forall h :: 0 <= h < |inv.hosts| ==>
                  var last := LastLinked(inv, h, |inv.vms|);
                  if last == 0 then r.hosts[h] == inv.hosts[h]
                  else Carries(inv.hosts[h], r.hosts[h], inv.vms[last - 1].value.hypervisorId))
  {
    hide LinkedUpTo, IsLinked, FirstOwner, VmAfter, HostAfter, LastLinked, LinkedHost, Carries, WellFormed;
    LinkedUpToIs(inv, |inv.vms|);
    var r, n := Correlated(inv), |inv.vms|;
    LinkedSizes(inv, r);
    forall i | 0 <= i < n
      ensures match Target(inv, i)
              case None => r.vms[i] == inv.vms[i]
              case Some(h) =>
                && r.vms[i].value.hostId == Some(r.hosts[h].value.id)
                && r.hosts[h].key == r.hosts[h].value.id
                && r.vms[i] == Entry(inv.vms[i].key, inv.vms[i].value.(hostId := r.vms[i].value.hostId))
    {
      LinkedVmIs(inv, r, i);
    }
    forall h | 0 <= h < |inv.hosts|
      ensures var last := LastLinked(inv, h, n);
              if last == 0 then r.hosts[h] == inv.hosts[h]
              else Carries(inv.hosts[h], r.hosts[h], inv.vms[last - 1].value.hypervisorId)
    {
      LinkedHostIs(inv, r, h);
    }
  }

  lemma {:induction false} LinkedSizes(inv: Inv, r: Inv)
    requires IsLinked(inv, r, |inv.vms|)
    ensures |r.vms| == |inv.vms| && |r.hosts| == |inv.hosts|
  {
    hide VmAfter, HostAfter;
  }

  lemma {:induction false} LinkedVmIs(inv: Inv, r: Inv, i: nat)
    requires WellFormed(inv) && IsLinked(inv, r, |inv.vms|) && i < |inv.vms|
    ensures match Target(inv, i)
            case None => r.vms[i] == inv.vms[i]
            case Some(h) =>
              && r.vms[i].value.hostId == Some(r.hosts[h].value.id)
              && r.hosts[h].key == r.hosts[h].value.id
              && r.vms[i] == Entry(inv.vms[i].key, inv.vms[i].value.(hostId := r.vms[i].value.hostId))
  {
    hide FirstOwner, LastLinked;
    assert r.vms[i] == VmAfter(inv, i, |inv.vms|);
    if Target(inv, i).Some? {
      var h := Target(inv, i).value;
      assert r.hosts[h] == HostAfter(inv, h, |inv.vms|);
      assert inv.hosts[h] in inv.hosts;
    }
  }

  lemma {:induction false} LinkedHostIs(inv: Inv, r: Inv, h: nat)
    requires IsLinked(inv, r, |inv.vms|) && h < |inv.hosts|
    ensures var last := LastLinked(inv, h, |inv.vms|);
            if last == 0 then r.hosts[h] == inv.hosts[h]
            else Carries(inv.hosts[h], r.hosts[h], inv.vms[last - 1].value.hypervisorId)
  {
    hide FirstOwner, Target, LastLinked, VmAfter;
    assert r.hosts[h] == HostAfter(inv, h, |inv.vms|);
  }

  /** A VM has a target exactly when it owns an address of some host. */
  lemma {:induction false} HasTargetIff(hosts: seq<Entry<Host>>, addresses: seq<string>)
    ensures FirstOwner(hosts, addresses).Some? <==>
            exists a, h :: a in addresses && 0 <= h < |hosts| && a in hosts[h].value.addresses
  {
    if addresses != [] {
      HasTargetIff(hosts, addresses[1..]);
      assert addresses == [addresses[0]] + addresses[1..];
      forall a, h | a in addresses && 0 <= h < |hosts| && a in hosts[h].value.addresses
        ensures FirstOwner(hosts, addresses).Some?
      {
        assert a == addresses[0] || a in addresses[1..];
      }
      if Owner(hosts, addresses[0]).Some? {
        assert addresses[0] in addresses && addresses[0] in hosts[Owner(hosts, addresses[0]).value].value.addresses;
      } else if FirstOwner(hosts, addresses[1..]).Some? {
        var a, h :| a in addresses[1..] && 0 <= h < |hosts| && a in hosts[h].value.addresses;
        assert a in addresses;
      }
    }
  }

  lemma {:induction false} CorrelatedKeys(inv: Inv)
    ensures var r := Correlated(inv);
            && KeysOf(r.hosts, EntryKey<Host>) == KeysOf(inv.hosts, EntryKey<Host>)
            && (WellFormed(inv) ==> WellFormed(r))
  {
    hide LinkedUpTo, IsLinked, WellFormed;
    LinkedUpToIs(inv, |inv.vms|);
    LinkedKeys(inv, Correlated(inv));
    if WellFormed(inv) {
      SameKeysWellFormed(inv, Correlated(inv));
    }
  }

  /** The same records in the same order, as far as keys and ids go. */
  ghost predicate SameIds(a: Inv, b: Inv) {
    && |a.hosts| == |b.hosts|
    && (forall h :: 0 <= h < |a.hosts| ==>
          b.hosts[h].key == a.hosts[h].key && b.hosts[h].value.id == a.hosts[h].value.id)
    && |a.vms| == |b.vms|
    && (forall i :: 0 <= i < |a.vms| ==> b.vms[i].key == a.vms[i].key && b.vms[i].value.id == a.vms[i].value.id)
  }

  lemma {:induction false} LinkedKeys(inv: Inv, r: Inv)
    requires IsLinked(inv, r, |inv.vms|)
    ensures SameIds(inv, r) && KeysOf(r.hosts, EntryKey<Host>) == KeysOf(inv.hosts, EntryKey<Host>)
  {
    hide Target, FirstOwner, LastLinked;
    var n := |inv.vms|;
    forall h | 0 <= h < |inv.hosts|
      ensures r.hosts[h].key == inv.hosts[h].key && r.hosts[h].value.id == inv.hosts[h].value.id
    {
      assert r.hosts[h] == HostAfter(inv, h, n);
    }
    forall i | 0 <= i < n
      ensures r.vms[i].key == inv.vms[i].key && r.vms[i].value.id == inv.vms[i].value.id
    {
      assert r.vms[i] == VmAfter(inv, i, n);
    }
  }

  lemma {:induction false} SameKeysWellFormed(a: Inv, b: Inv)
    requires SameIds(a, b) && WellFormed(a)
    ensures WellFormed(b)
  {
    assert forall h :: 0 <= h < |a.hosts| ==> a.hosts[h] in a.hosts;
    assert forall i :: 0 <= i < |a.vms| ==> a.vms[i] in a.vms;
  }

  /** Correlation leaves only links that resolve, if those it was given do. */
  lemma {:induction false} CorrelatedResolves(inv: Inv)
    requires WellFormed(inv) && LinksResolve(inv)
    ensures LinksResolve(Correlated(inv))
  {
    CorrelationLinks(inv);
    CorrelatedKeys(inv);
    var r := Correlated(inv);
    forall i | 0 <= i < |r.vms| && r.vms[i].value.hostId.Some?
      ensures HasKey(r.hosts, EntryKey<Host>, r.vms[i].value.hostId.value)
    {
      match Target(inv, i)
      case Some(h) => HasKeyAt(r.hosts, EntryKey<Host>, h);
      case None =>
        var id := inv.vms[i].value.hostId.value;
        HasKeyIffIn(inv.hosts, EntryKey<Host>, id);
        HasKeyIffIn(r.hosts, EntryKey<Host>, id);
    }
  }

  /** A second correlation changes nothing. */
  lemma {:induction false} CorrelateIdempotent(inv: Inv)
    ensures Correlated(Correlated(inv)) == Correlated(inv)
  {
    var n := |inv.vms|;
    var r := Correlated(inv);
    var rr := Correlated(r);
    LinkedUpToIs(inv, n);
    LinkedUpToIs(r, n);
    forall i | 0 <= i < n
      ensures Target(r, i) == Target(inv, i)
    {
      assert r.vms[i] == VmAfter(inv, i, n);
      LinkedKeepsAddresses(inv, r, n);
      FirstOwnerByAddresses(r.hosts, inv.hosts, inv.vms[i].value.addresses);
    }
    forall i | 0 <= i < n
      ensures rr.vms[i] == r.vms[i]
    {
      RelinkVm(inv, r, i);
      assert rr.vms[i] == VmAfter(r, i, n);
    }
    forall h | 0 <= h < |inv.hosts|
      ensures rr.hosts[h] == r.hosts[h]
    {
      RelinkHost(inv, r, h);
      assert rr.hosts[h] == HostAfter(r, h, n);
    }
  }

  lemma {:induction false} RelinkVm(inv: Inv, r: Inv, i: nat)
    requires IsLinked(inv, r, |inv.vms|) && i < |inv.vms| && Target(r, i) == Target(inv, i)
    ensures VmAfter(r, i, |inv.vms|) == r.vms[i]
  {
    hide FirstOwner, Target;
    assert r.vms[i] == VmAfter(inv, i, |inv.vms|);
    if Target(inv, i).Some? {
      var h := Target(inv, i).value;
      assert r.hosts[h] == HostAfter(inv, h, |inv.vms|);
    }
  }

  lemma {:induction false} RelinkHost(inv: Inv, r: Inv, h: nat)
    requires IsLinked(inv, r, |inv.vms|) && h < |inv.hosts|
    requires forall i :: 0 <= i < |inv.vms| ==> Target(r, i) == Target(inv, i)
    ensures HostAfter(r, h, |inv.vms|) == r.hosts[h]
  {
    hide FirstOwner, Target;
    var n := |inv.vms|;
    assert r.hosts[h] == HostAfter(inv, h, n);
    SameLastLinked(inv, r, h, n);
    var last := LastLinked(inv, h, n);
    if last > 0 {
      assert r.vms[last - 1] == VmAfter(inv, last - 1, n);
      LinkedTwice(inv.hosts[h], inv.vms[last - 1].value.hypervisorId);
    }
  }

  lemma {:induction false} SameLastLinked(a: Inv, b: Inv, h: nat, n: nat)
    requires |a.vms| == |b.vms| && n <= |a.vms|
    requires forall i :: 0 <= i < |a.vms| ==> Target(b, i) == Target(a, i)
    ensures LastLinked(a, h, n) == LastLinked(b, h, n)
  {
    if n > 0 {
      SameLastLinked(a, b, h, n - 1);
    }
  }

  // ---- Over runs ----

  /** Merging keeps every link resolvable: hosts are never dropped, and a VM brings its host along. */
  lemma {:induction false} MergeResolves(a: Inv, b: Inv, clock: nat -> string)
    requires WellFormed(b) && LinksResolve(a) && LinksResolve(b)
    ensures LinksResolve(MergeInv(a, b, clock))
  {
    hide MergeInv, WellFormed;
    var r := MergeInv(a, b, clock);
    forall i | 0 <= i < |r.vms| && r.vms[i].value.hostId.Some?
      ensures HasKey(r.hosts, EntryKey<Host>, r.vms[i].value.hostId.value)
    {
      var id := r.vms[i].value.hostId.value;
      MergedVmOrigin(a, b, clock, i);
      MergeIds(a, b, clock);
      assert id in HostIds(a) + HostIds(b);
      assert id in HostIds(r);
    }
  }

  /** Every VM after a merge comes from one side. */
  lemma {:induction false} MergedVmOrigin(a: Inv, b: Inv, clock: nat -> string, i: nat)
    requires i < |MergeInv(a, b, clock).vms|
    ensures var v := MergeInv(a, b, clock).vms[i].value;
            || (exists j :: 0 <= j < |a.vms| && a.vms[j].value == v)
            || (exists j :: 0 <= j < |b.vms| && b.vms[j].value == v)
  {
    UpsertedVmOrigin(a.vms, Values(b.vms), i);
  }

  lemma {:induction false} UpsertedVmOrigin(d: seq<Entry<Vm>>, more: seq<Vm>, i: nat)
    requires i < |UpsertVms(d, more)|
    ensures var v := UpsertVms(d, more)[i].value;
            (exists j :: 0 <= j < |d| && d[j].value == v) || (exists j :: 0 <= j < |more| && more[j] == v)
  {
    if more != [] {
      var n := |more| - 1;
      var before, r := UpsertVms(d, more[..n]), UpsertVms(d, more);
      if i < |before| && r[i] == before[i] {
        UpsertedVmOrigin(d, more[..n], i);
      } else {
        assert r[i].value == more[n];
      }
    }
  }

  lemma {:induction false} CumulativeResolves(scans: seq<Inv>, clocks: nat -> nat -> string)
    requires scans != [] && AllWellFormed(scans) && forall i :: 0 <= i < |scans| ==> LinksResolve(scans[i])
    ensures LinksResolve(Cumulative(scans, clocks))
  {
    hide LinksResolve, MergeInv, WellFormed;
    var n := |scans| - 1;
    if n != 0 {
      CumulativeResolves(scans[..n], clocks);
      MergeResolves(Cumulative(scans[..n], clocks), scans[n], clocks(n));
    }
  }

  /** What the virtualization backends report is not linked yet. */
  ghost predicate Unlinked(inv: Inv) {
    forall i :: 0 <= i < |inv.vms| ==> inv.vms[i].value.hostId == None
  }

  /** What enrichment does to a correlated scan: hosts are annotated in place; their ids, and the VMs, stay. */
  ghost predicate Annotated(a: Inv, b: Inv) {
    b.vms == a.vms && SameIds(a, b)
  }

  /** Annotating hosts keeps the inventory filed and every link resolvable. */
  lemma {:induction false} AnnotatedResolves(a: Inv, b: Inv)
    requires Annotated(a, b) && WellFormed(a) && LinksResolve(a)
    ensures WellFormed(b) && LinksResolve(b)
  {
    hide LinksResolve, WellFormed;
    SameKeysWellFormed(a, b);
    assert KeysOf(b.hosts, EntryKey<Host>) == KeysOf(a.hosts, EntryKey<Host>);
    SameKeysResolve(a, b);
  }

  lemma {:induction false} SameKeysResolve(a: Inv, b: Inv)
    requires b.vms == a.vms && KeysOf(b.hosts, EntryKey<Host>) == KeysOf(a.hosts, EntryKey<Host>) && LinksResolve(a)
    ensures LinksResolve(b)
  {
    forall i | 0 <= i < |b.vms| && b.vms[i].value.hostId.Some?
      ensures HasKey(b.hosts, EntryKey<Host>, b.vms[i].value.hostId.value)
    {
      HasKeyIffIn(a.hosts, EntryKey<Host>, b.vms[i].value.hostId.value);
      HasKeyIffIn(b.hosts, EntryKey<Host>, b.vms[i].value.hostId.value);
    }
  }

  /**
   * After any run of scans - each collected, correlated, enriched in any way that only annotates hosts, and saved -
   * every link in the stored inventory resolves.
   */
  lemma {:induction false} StoredLinksResolve(calls: seq<Call>, raw: seq<Inv>, now: string)
    requires calls != [] && |raw| == |calls| && AllWellFormed(raw)
    requires forall i :: 0 <= i < |calls| ==> Unlinked(raw[i]) && Annotated(Correlated(raw[i]), calls[i].scan)
    ensures var loaded := LoadFrom(Run(calls), now);
            loaded.Ok? && loaded.value.Some? && LinksResolve(loaded.value.value)
  {
    hide LinksResolve, Correlated, WellFormed, Annotated, Run, LoadFrom;
    forall i | 0 <= i < |calls|
      ensures WellFormed(calls[i].scan) && LinksResolve(calls[i].scan)
    {
      UnlinkedResolves(raw[i]);
      CorrelatedKeys(raw[i]);
      CorrelatedResolves(raw[i]);
      AnnotatedResolves(Correlated(raw[i]), calls[i].scan);
    }
    var scans := Scanned(calls);
    CumulativeResolves(scans, Clocks(calls));
    LoadsCumulative(calls, now);
  }

  lemma UnlinkedResolves(inv: Inv)
    requires Unlinked(inv)
    ensures LinksResolve(inv)
  {
  }

  lemma {:induction false} LoadsCumulative(calls: seq<Call>, now: string)
    requires calls != [] && FiledScans(calls)
    ensures LoadFrom(Run(calls), now) == Ok(Some(Cumulative(Scanned(calls), Clocks(calls))))
  {
    RunStoresCumulative(calls);
    LoadsBack(Scanned(calls), Clocks(calls), now);
  }
}
