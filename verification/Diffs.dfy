/** What changed between two inventories: `diff_inventories`. */
module Diffs {
  import opened Flattening
  import opened Json
  import opened KeyedLists
  import opened Model
  import opened Sorting
  import opened Wrappers

  /** What a field change carries: a text, a number, or their absence. */
  datatype FieldValue = TextValue(text: Option<string>) | NumberValue(number: Option<int>)

  datatype FieldChange = FieldChange(field: string, before: FieldValue, after: FieldValue)

  datatype HostChange = HostChange(
    id: string,
    hostLabel: string,
    fields: seq<FieldChange>,
    servicesAdded: seq<string>,
    servicesRemoved: seq<string>,
    servicesChanged: seq<FieldChange>)
  {
    predicate IsEmpty() {
      fields == [] && servicesAdded == [] && servicesRemoved == [] && servicesChanged == []
    }
  }

  datatype VmChange = VmChange(id: string, name: string, fields: seq<FieldChange>) {
    predicate IsEmpty() {
      fields == []
    }
  }

  datatype InventoryDiff = InventoryDiff(
    oldGeneratedAt: string,
    newGeneratedAt: string,
    hostsAdded: seq<Host>,
    hostsRemoved: seq<Host>,
    hostsChanged: seq<HostChange>,
    vmsAdded: seq<Vm>,
    vmsRemoved: seq<Vm>,
    vmsChanged: seq<VmChange>)
  {
    predicate IsEmpty() {
      && hostsAdded == [] && hostsRemoved == [] && hostsChanged == []
      && vmsAdded == [] && vmsRemoved == [] && vmsChanged == []
    }
  }

  // ---- Loops over a set of keys ----

  /** The elements whose key is among `ks`, in list order. */
  function Among<T, K(==)>(s: seq<T>, key: T -> K, ks: set<K>): seq<T> {
    if s == [] then []
    else
      var n := |s| - 1;
      Among(s[..n], key, ks) + if key(s[n]) in ks then [s[n]] else []
  }

  /** A comprehension over a set of keys: every key once, in no particular order. */
  method ForEachKey<T, V>(s: seq<T>, key: T -> string, ks: set<string>, f: T -> seq<V>) returns (out: seq<V>)
    requires Distinct(s, key) && forall k :: k in ks ==> HasKey(s, key, k)
    ensures multiset(out) == multiset(FlatMap(Among(s, key, ks), f))
  {
    out := [];
    var rest := ks;
    while rest != {}
      invariant rest <= ks
      invariant multiset(out) + multiset(FlatMap(Among(s, key, rest), f)) == multiset(FlatMap(Among(s, key, ks), f))
    {
      var k :| k in rest;
      OneKey(s, key, rest, k, f);
      out := out + f(s[Find(s, key, k)]);
      rest := rest - {k};
    }
    AmongNone(s, key);
  }

  lemma {:induction false} OneKey<T, V>(s: seq<T>, key: T -> string, ks: set<string>, k: string, f: T -> seq<V>)
    requires Distinct(s, key) && k in ks && HasKey(s, key, k)
    ensures multiset(FlatMap(Among(s, key, ks), f)) ==
            multiset(FlatMap(Among(s, key, ks - {k}), f)) + multiset(f(s[Find(s, key, k)]))
  {
    hide Among, FlatMap;
    var n := |s| - 1;
    var front, x := s[..n], s[n];
    AmongSnoc(front, x, key, ks, f);
    AmongSnoc(front, x, key, ks - {k}, f);
    assert front + [x] == s;
    var all, rest := FlatMap(Among(front, key, ks), f), FlatMap(Among(front, key, ks - {k}), f);
    if key(x) == k {
      FindDistinct(s, key, n);
      AmongWithout(front, key, ks, k);
      assert rest + [] == rest;
    } else {
      FindIs(front, key, k, Find(s, key, k));
      assert front[Find(front, key, k)] == s[Find(s, key, k)];
      OneKey(front, key, ks, k, f);
      if key(x) !in ks {
        assert all + [] == all && rest + [] == rest;
      }
    }
  }

  lemma {:induction false} AmongSnoc<T, V>(front: seq<T>, x: T, key: T -> string, ks: set<string>, f: T -> seq<V>)
    ensures FlatMap(Among(front + [x], key, ks), f) ==
            FlatMap(Among(front, key, ks), f) + if key(x) in ks then f(x) else []
  {
    assert (front + [x])[..|front|] == front;
    var kept := Among(front, key, ks);
    assert kept + [] == kept;
    FlatMapSnoc(kept, x, f);
  }

  lemma {:induction false} AmongWithout<T>(s: seq<T>, key: T -> string, ks: set<string>, k: string)
    requires forall x :: x in s ==> key(x) != k
    ensures Among(s, key, ks) == Among(s, key, ks - {k})
  {
    if s != [] {
      AmongWithout(s[..|s| - 1], key, ks, k);
    }
  }

  lemma {:induction false} AmongNone<T>(s: seq<T>, key: T -> string)
    ensures Among(s, key, {}) == []
  {
    if s != [] {
      AmongNone(s[..|s| - 1], key);
    }
  }

  lemma {:induction false} InAmong<T>(s: seq<T>, key: T -> string, ks: set<string>, x: T)
    ensures x in Among(s, key, ks) <==> x in s && key(x) in ks
  {
    if s != [] {
      var n := |s| - 1;
      InAmong(s[..n], key, ks, x);
      assert s == s[..n] + [s[n]];
    }
  }

  lemma {:induction false} AmongDistinct<T>(s: seq<T>, key: T -> string, ks: set<string>)
    requires Distinct(s, key)
    ensures Distinct(Among(s, key, ks), key)
  {
    if s != [] {
      var n := |s| - 1;
      AmongDistinct(s[..n], key, ks);
      forall x | x in Among(s[..n], key, ks)
        ensures key(x) != key(s[n])
      {
        InAmong(s[..n], key, ks, x);
      }
    }
  }

  // ---- Fields ----

  datatype HostField = HostnameField | MacField | OsField | HypervisorField

  const HOST_FIELDS: seq<(HostField, string)> :=
    [(HostnameField, "hostname"), (MacField, "mac"), (OsField, "os"), (HypervisorField, "hypervisor")]

  function HostValue(h: Host, field: HostField): FieldValue {
    match field
    case HostnameField => TextValue(h.hostname)
    case MacField => TextValue(h.mac)
    case OsField => TextValue(h.os)
    case HypervisorField => TextValue(h.hypervisorId)
  }

  datatype VmField = PowerField | VcpusField | MemoryField | GuestOsField | VmHypervisorField

  const VM_FIELDS: seq<(VmField, string)> :=
    [(PowerField, "power state"), (VcpusField, "vcpus"), (MemoryField, "memory (MB)"), (GuestOsField, "guest OS"),
     (VmHypervisorField, "hypervisor")]

  function VmValue(v: Vm, field: VmField): FieldValue {
    match field
    case PowerField => TextValue(Some(PowerName(v.powerState)))
    case VcpusField => NumberValue(v.vcpus)
    case MemoryField => NumberValue(v.memoryMb)
    case GuestOsField => TextValue(v.guestOs)
    case VmHypervisorField => TextValue(Some(v.hypervisorId))
  }

  function Drift(name: string, before: FieldValue, after: FieldValue): seq<FieldChange> {
    if before != after then [FieldChange(name, before, after)] else []
  }

  /** The drift of each field of a table, in table order. */
  function DriftOf<F, R>(fields: seq<(F, string)>, value: (R, F) -> FieldValue, before: R, after: R): seq<FieldChange> {
    if fields == [] then []
    else
      var n := |fields| - 1;
      DriftOf(fields[..n], value, before, after) +
      Drift(fields[n].1, value(before, fields[n].0), value(after, fields[n].0))
  }

  lemma NoFields<F, R>(value: (R, F) -> FieldValue, before: R, after: R)
    ensures DriftOf([], value, before, after) == []
  {
  }

  lemma {:induction false} OneMoreField<F, R>(
      fields: seq<(F, string)>, x: (F, string), value: (R, F) -> FieldValue, before: R, after: R)
    ensures DriftOf(fields + [x], value, before, after) ==
            DriftOf(fields, value, before, after) + Drift(x.1, value(before, x.0), value(after, x.0))
  {
    assert (fields + [x])[..|fields|] == fields;
  }

  /** `", ".join(s)` */
  function Joined(s: seq<string>): string {
    if s == [] then ""
    else if |s| == 1 then s[0]
    else Joined(s[..|s| - 1]) + ", " + s[|s| - 1]
  }

  function AddressDrift(before: seq<string>, after: seq<string>): seq<FieldChange> {
    if multiset(before) != multiset(after) then
      [FieldChange("addresses", TextValue(Some(Joined(before))), TextValue(Some(Joined(after))))]
    else []
  }

  method DiffAddresses(before: seq<string>, after: seq<string>) returns (drift: seq<FieldChange>)
    ensures drift == AddressDrift(before, after)
  {
    var sortedBefore := SortBy(before, Itself);
    var sortedAfter := SortBy(after, Itself);
    SortedEqualIff(before, after);
    drift := [];
    if sortedBefore != sortedAfter {
      drift := [FieldChange("addresses", TextValue(Some(Joined(before))), TextValue(Some(Joined(after))))];
    }
  }

  // ---- Services ----

  /** `{s.key: s for s in services}` */
  function ServiceDict(services: seq<Service>): seq<Service> {
    PutAll([], services, ServiceKey)
  }

  lemma {:induction false} ServiceDictIs(services: seq<Service>)
    ensures Distinct(ServiceDict(services), ServiceKey)
    ensures forall k :: Get(ServiceDict(services), ServiceKey, k) == Last(services, ServiceKey, k)
    ensures forall k :: HasKey(ServiceDict(services), ServiceKey, k) <==> HasKey(services, ServiceKey, k)
  {
    UpsertAllDistinct([], services, ServiceKey, TakeNew);
    forall k
      ensures Get(ServiceDict(services), ServiceKey, k) == Last(services, ServiceKey, k)
      ensures HasKey(ServiceDict(services), ServiceKey, k) <==> HasKey(services, ServiceKey, k)
    {
      PutAllGet([], services, ServiceKey, k);
      LastSome(services, ServiceKey, k);
    }
  }

  function OneLabel(s: Service): seq<string> { [ServiceLabel(s)] }

  function FieldName(c: FieldChange): string { c.field }

  /** `_diff_service` */
  function ServiceDrift(before: Service, after: Service): seq<FieldChange> {
    Drift(ServiceKey(before), TextValue(Some(ServiceLabel(before))), TextValue(Some(ServiceLabel(after))))
  }

  /** The drift from the service `dict` holds under the same key. */
  function DriftFrom(dict: seq<Service>): Service -> seq<FieldChange> {
    (s: Service) =>
      var was := Get(dict, ServiceKey, ServiceKey(s));
      if was.Some? then ServiceDrift(was.value, s) else []
  }

  /** The labels of the services of `these` whose key is not among `those`. */
  function LabelsOnlyIn(these: seq<Service>, those: seq<Service>): seq<string> {
    FlatMap(Among(these, ServiceKey, KeySet(these, ServiceKey) - KeySet(those, ServiceKey)), OneLabel)
  }

  function ServiceDrifts(before: seq<Service>, after: seq<Service>): seq<FieldChange> {
    FlatMap(Among(after, ServiceKey, KeySet(before, ServiceKey) * KeySet(after, ServiceKey)), DriftFrom(before))
  }

  // ---- One host, one VM ----

  function HostFieldDrift(before: Host, after: Host): seq<FieldChange> {
    Drift("role", TextValue(Some(RoleName(before.role))), TextValue(Some(RoleName(after.role)))) +
    DriftOf(HOST_FIELDS, HostValue, before, after) +
    AddressDrift(before.addresses, after.addresses)
  }

  function HostDiff(before: Host, after: Host): HostChange {
    var was, is_ := ServiceDict(before.services), ServiceDict(after.services);
    HostChange(
      after.id,
      HostLabel(after),
      HostFieldDrift(before, after),
      Ordered(LabelsOnlyIn(is_, was), Itself),
      Ordered(LabelsOnlyIn(was, is_), Itself),
      Ordered(ServiceDrifts(was, is_), FieldName))
  }

  method DiffHost(before: Host, after: Host) returns (change: HostChange)
    ensures change == HostDiff(before, after)
  {
    hide HostFieldDrift, LabelsOnlyIn, ServiceDrifts, ServiceDict;
    var fields := DiffHostFields(before, after);
    ServiceDictIs(before.services);
    ServiceDictIs(after.services);
    var added, removed, changed := DiffServices(ServiceDict(before.services), ServiceDict(after.services));
    change := HostChange(after.id, HostLabel(after), fields, added, removed, changed);
  }

  method DiffHostFields(before: Host, after: Host) returns (fields: seq<FieldChange>)
    ensures fields == HostFieldDrift(before, after)
  {
    hide AddressDrift, HostValue, RoleName, DriftOf;
    fields := [];
    if RoleName(before.role) != RoleName(after.role) {
      fields := [FieldChange("role", TextValue(Some(RoleName(before.role))), TextValue(Some(RoleName(after.role))))];
    }
    ghost var role := fields;
    NoFields(HostValue, before, after);
    assert HOST_FIELDS[..0] == [] && role + [] == role;
    for i := 0 to |HOST_FIELDS|
      invariant fields == role + DriftOf(HOST_FIELDS[..i], HostValue, before, after)
    {
      var (attr, name) := HOST_FIELDS[i];
      var was, is_ := HostValue(before, attr), HostValue(after, attr);
      OneMoreField(HOST_FIELDS[..i], HOST_FIELDS[i], HostValue, before, after);
      assert HOST_FIELDS[..i + 1] == HOST_FIELDS[..i] + [HOST_FIELDS[i]];
      if was != is_ {
        fields := fields + [FieldChange(name, was, is_)];
      }
    }
    assert HOST_FIELDS[..|HOST_FIELDS|] == HOST_FIELDS;
    var addresses := DiffAddresses(before.addresses, after.addresses);
    fields := fields + addresses;
  }

  method DiffServices(before: seq<Service>, after: seq<Service>)
      returns (added: seq<string>, removed: seq<string>, changed: seq<FieldChange>)
    requires Distinct(before, ServiceKey) && Distinct(after, ServiceKey)
    ensures added == Ordered(LabelsOnlyIn(after, before), Itself)
    ensures removed == Ordered(LabelsOnlyIn(before, after), Itself)
    ensures changed == Ordered(ServiceDrifts(before, after), FieldName)
  {
    var oldKeys, newKeys := KeySet(before, ServiceKey), KeySet(after, ServiceKey);
    added := ForEachKey(after, ServiceKey, newKeys - oldKeys, OneLabel);
    OrderOfLabels(added, LabelsOnlyIn(after, before));
    added := SortBy(added, Itself);
    removed := ForEachKey(before, ServiceKey, oldKeys - newKeys, OneLabel);
    OrderOfLabels(removed, LabelsOnlyIn(before, after));
    removed := SortBy(removed, Itself);
    changed := ForEachKey(after, ServiceKey, oldKeys * newKeys, DriftFrom(before));
    OrderOfDrifts(changed, before, after);
    changed := SortBy(changed, FieldName);
  }

  function VmDiff(before: Vm, after: Vm): VmChange {
    VmChange(after.id, after.name,
             DriftOf(VM_FIELDS, VmValue, before, after) + AddressDrift(before.addresses, after.addresses))
  }

  method DiffVm(before: Vm, after: Vm) returns (change: VmChange)
    ensures change == VmDiff(before, after)
  {
    var fields := [];
    for i := 0 to |VM_FIELDS|
      invariant fields == DriftOf(VM_FIELDS[..i], VmValue, before, after)
    {
      var (attr, name) := VM_FIELDS[i];
      var was, is_ := VmValue(before, attr), VmValue(after, attr);
      assert VM_FIELDS[..i + 1][..i] == VM_FIELDS[..i];
      if was != is_ {
        fields := fields + [FieldChange(name, was, is_)];
      }
    }
    assert VM_FIELDS[..|VM_FIELDS|] == VM_FIELDS;
    var addresses := DiffAddresses(before.addresses, after.addresses);
    change := VmChange(after.id, after.name, fields + addresses);
  }

  /** Sorting labels forgets the order the set of keys was walked in. */
  lemma {:induction false} OrderOfLabels(a: seq<string>, b: seq<string>)
    requires multiset(a) == multiset(b)
    ensures Ordered(a, Itself) == Ordered(b, Itself)
  {
    OrderedIsSorted(a, Itself);
    OrderedIsSorted(b, Itself);
    OrderIsUnique(Ordered(a, Itself), Ordered(b, Itself), Itself);
  }

  lemma {:induction false} OrderOfDrifts(a: seq<FieldChange>, before: seq<Service>, after: seq<Service>)
    requires multiset(a) == multiset(ServiceDrifts(before, after)) && Distinct(after, ServiceKey)
    ensures Ordered(a, FieldName) == Ordered(ServiceDrifts(before, after), FieldName)
  {
    var r, t := Ordered(a, FieldName), Ordered(ServiceDrifts(before, after), FieldName);
    DriftsToldApart(before, after);
    OrderedIsSorted(a, FieldName);
    OrderedIsSorted(ServiceDrifts(before, after), FieldName);
    forall x | x in r
      ensures x in ServiceDrifts(before, after)
    {
      assert x in multiset(r);
    }
    OrderIsUnique(r, t, FieldName);
  }

  ghost predicate LabelMoved(before: seq<Service>, after: seq<Service>, c: FieldChange) {
    var was, is_ := Get(before, ServiceKey, c.field), Get(after, ServiceKey, c.field);
    && was.Some? && is_.Some?
    && ServiceLabel(was.value) != ServiceLabel(is_.value)
    && c.before == TextValue(Some(ServiceLabel(was.value)))
    && c.after == TextValue(Some(ServiceLabel(is_.value)))
  }

  lemma {:induction false} DriftFromIs(before: seq<Service>, after: seq<Service>, s: Service, c: FieldChange)
    requires Get(after, ServiceKey, ServiceKey(s)) == Some(s)
    ensures c in DriftFrom(before)(s) <==> c.field == ServiceKey(s) && LabelMoved(before, after, c)
  {
    hide ServiceLabel;
  }

  lemma {:induction false} InAfter(after: seq<Service>, s: Service)
    requires Distinct(after, ServiceKey)
    ensures s in after <==> Get(after, ServiceKey, ServiceKey(s)) == Some(s)
  {
    if s in after {
      var j :| 0 <= j < |after| && after[j] == s;
      FindDistinct(after, ServiceKey, j);
    }
  }

  /** The service drifts are the common keys whose label moved. */
  lemma {:induction false} InServiceDrifts(before: seq<Service>, after: seq<Service>, c: FieldChange)
    requires Distinct(after, ServiceKey)
    ensures c in ServiceDrifts(before, after) <==> LabelMoved(before, after, c)
  {
    hide LabelMoved, DriftFrom, ServiceKey;
    var ks := KeySet(before, ServiceKey) * KeySet(after, ServiceKey);
    var common := Among(after, ServiceKey, ks);
    InFlatMap(common, DriftFrom(before), c);
    forall i | 0 <= i < |common|
      ensures c in DriftFrom(before)(common[i]) <==> c.field == ServiceKey(common[i]) && LabelMoved(before, after, c)
    {
      InAmong(after, ServiceKey, ks, common[i]);
      InAfter(after, common[i]);
      DriftFromIs(before, after, common[i], c);
    }
    if LabelMoved(before, after, c) {
      LabelMovedKeys(before, after, c);
      var s := Get(after, ServiceKey, c.field).value;
      InAmong(after, ServiceKey, ks, s);
      var i :| 0 <= i < |common| && common[i] == s;
      assert c in DriftFrom(before)(common[i]);
    }
  }

  lemma LabelMovedKeys(before: seq<Service>, after: seq<Service>, c: FieldChange)
    requires LabelMoved(before, after, c)
    ensures HasKey(before, ServiceKey, c.field) && HasKey(after, ServiceKey, c.field)
  {
  }

  lemma {:induction false} DriftsToldApart(before: seq<Service>, after: seq<Service>)
    requires Distinct(after, ServiceKey)
    ensures ToldApart(ServiceDrifts(before, after), FieldName)
  {
    hide ServiceDrifts, ServiceLabel;
    forall x, y | x in ServiceDrifts(before, after) && y in ServiceDrifts(before, after) && FieldName(x) == FieldName(y)
      ensures x == y
    {
      InServiceDrifts(before, after, x);
      InServiceDrifts(before, after, y);
    }
  }

  // ---- Two inventories ----

  function OneValue<V>(e: Entry<V>): seq<V> { [e.value] }

  /** The records of `these` filed under ids `those` does not have. */
  function OnlyIn<V>(these: seq<Entry<V>>, those: seq<Entry<V>>): seq<V> {
    FlatMap(Among(these, EntryKey, Ids(these) - Ids(those)), OneValue)
  }

  function RecordAt<V>(d: seq<Entry<V>>, id: string): Option<V> {
    var e := Get(d, EntryKey<V>, id);
    if e.Some? then Some(e.value.value) else None
  }

  /** The change of a record from the one `before` files under the same id, when there is one. */
  function ChangeFrom<V, C>(before: seq<Entry<V>>, diff: (V, V) -> C, quiet: C -> bool): Entry<V> -> seq<C> {
    (e: Entry<V>) =>
      var was := RecordAt(before, e.key);
      if was.Some? && !quiet(diff(was.value, e.value)) then [diff(was.value, e.value)] else []
  }

  /** The changes of the records both sides have, leaving out the empty ones. */
  function Changes<V, C>(before: seq<Entry<V>>, after: seq<Entry<V>>, diff: (V, V) -> C, quiet: C -> bool): seq<C> {
    FlatMap(Among(after, EntryKey, Ids(before) * Ids(after)), ChangeFrom(before, diff, quiet))
  }

  lemma {:induction false} ChangeFromAt<V, C>(
      before: seq<Entry<V>>, was: Entry<V>, e: Entry<V>, diff: (V, V) -> C, quiet: C -> bool)
    requires Get(before, EntryKey<V>, e.key) == Some(was)
    ensures var c := diff(was.value, e.value);
            ChangeFrom(before, diff, quiet)(e) == if quiet(c) then [] else [c]
  {
    assert RecordAt(before, e.key) == Some(was.value);
  }

  predicate QuietHost(c: HostChange) { c.IsEmpty() }

  predicate QuietVm(c: VmChange) { c.IsEmpty() }

  function HostChanges(before: seq<Entry<Host>>, after: seq<Entry<Host>>): seq<HostChange> {
    Changes(before, after, HostDiff, QuietHost)
  }

  function VmChanges(before: seq<Entry<Vm>>, after: seq<Entry<Vm>>): seq<VmChange> {
    Changes(before, after, VmDiff, QuietVm)
  }

  /** `_host_sort_key` */
  function HostSortKey(h: Host): string {
    if Truthy(PrimaryAddress(h)) then PrimaryAddress(h).value
    else if Truthy(h.hostname) then h.hostname.value
    else h.id
  }

  function VmSortKey(v: Vm): string { v.name }

  function HostChangeKey(c: HostChange): string { c.hostLabel }

  function VmChangeKey(c: VmChange): string { c.name }

  /**
   * `d` is a diff of the two inventories: every list holds the right records, as often as it should, in the order of
   * its sort key. Records of equal sort keys stand in the order the sets of ids were walked, which is not specified.
   */
  ghost predicate IsDiff(before: Inv, after: Inv, d: InventoryDiff) {
    && d.oldGeneratedAt == before.generatedAt && d.newGeneratedAt == after.generatedAt
    && multiset(d.hostsAdded) == multiset(OnlyIn(after.hosts, before.hosts)) && SortedBy(d.hostsAdded, HostSortKey)
    && multiset(d.hostsRemoved) == multiset(OnlyIn(before.hosts, after.hosts)) && SortedBy(d.hostsRemoved, HostSortKey)
    && multiset(d.hostsChanged) == multiset(HostChanges(before.hosts, after.hosts))
    && SortedBy(d.hostsChanged, HostChangeKey)
    && multiset(d.vmsAdded) == multiset(OnlyIn(after.vms, before.vms)) && SortedBy(d.vmsAdded, VmSortKey)
    && multiset(d.vmsRemoved) == multiset(OnlyIn(before.vms, after.vms)) && SortedBy(d.vmsRemoved, VmSortKey)
    && multiset(d.vmsChanged) == multiset(VmChanges(before.vms, after.vms)) && SortedBy(d.vmsChanged, VmChangeKey)
  }

  method DiffInventories(before: Inv, after: Inv) returns (d: InventoryDiff)
    requires IsDict(before.hosts) && IsDict(before.vms) && IsDict(after.hosts) && IsDict(after.vms)
    ensures IsDiff(before, after, d)
  {
    var hostsAdded, hostsRemoved := DiffIds(before.hosts, after.hosts);
    var hostsChanged := DiffCommonHosts(before.hosts, after.hosts);
    var vmsAdded, vmsRemoved := DiffIds(before.vms, after.vms);
    var vmsChanged := DiffCommonVms(before.vms, after.vms);
    hostsAdded := SortBy(hostsAdded, HostSortKey);
    hostsRemoved := SortBy(hostsRemoved, HostSortKey);
    hostsChanged := SortBy(hostsChanged, HostChangeKey);
    vmsAdded := SortBy(vmsAdded, VmSortKey);
    vmsRemoved := SortBy(vmsRemoved, VmSortKey);
    vmsChanged := SortBy(vmsChanged, VmChangeKey);
    d := InventoryDiff(before.generatedAt, after.generatedAt,
                       hostsAdded, hostsRemoved, hostsChanged, vmsAdded, vmsRemoved, vmsChanged);
  }

  method DiffIds<V>(before: seq<Entry<V>>, after: seq<Entry<V>>) returns (added: seq<V>, removed: seq<V>)
    requires IsDict(before) && IsDict(after)
    ensures multiset(added) == multiset(OnlyIn(after, before))
    ensures multiset(removed) == multiset(OnlyIn(before, after))
  {
    var oldIds, newIds := Ids(before), Ids(after);
    added := ForEachKey(after, EntryKey, newIds - oldIds, OneValue);
    removed := ForEachKey(before, EntryKey, oldIds - newIds, OneValue);
  }

  method DiffCommonHosts(before: seq<Entry<Host>>, after: seq<Entry<Host>>) returns (changed: seq<HostChange>)
    requires IsDict(before) && IsDict(after)
    ensures multiset(changed) == multiset(HostChanges(before, after))
  {
    hide HostDiff, ChangeFrom;
    ghost var f := ChangeFrom(before, HostDiff, QuietHost);
    changed := [];
    var rest := Ids(before) * Ids(after);
    while rest != {}
      invariant rest <= Ids(before) * Ids(after)
      invariant multiset(changed) + multiset(FlatMap(Among(after, EntryKey<Host>, rest), f))
             == multiset(HostChanges(before, after))
    {
      var id :| id in rest;
      OneKey(after, EntryKey<Host>, rest, id, f);
      var was, e := before[Find(before, EntryKey<Host>, id)], after[Find(after, EntryKey<Host>, id)];
      var change := DiffHost(was.value, e.value);
      ChangeFromAt(before, was, e, HostDiff, QuietHost);
      if !change.IsEmpty() {
        changed := changed + [change];
      }
      rest := rest - {id};
    }
    AmongNone(after, EntryKey<Host>);
  }

  method DiffCommonVms(before: seq<Entry<Vm>>, after: seq<Entry<Vm>>) returns (changed: seq<VmChange>)
    requires IsDict(before) && IsDict(after)
    ensures multiset(changed) == multiset(VmChanges(before, after))
  {
    hide VmDiff, ChangeFrom;
    ghost var f := ChangeFrom(before, VmDiff, QuietVm);
    changed := [];
    var rest := Ids(before) * Ids(after);
    while rest != {}
      invariant rest <= Ids(before) * Ids(after)
      invariant multiset(changed) + multiset(FlatMap(Among(after, EntryKey<Vm>, rest), f))
             == multiset(VmChanges(before, after))
    {
      var id :| id in rest;
      OneKey(after, EntryKey<Vm>, rest, id, f);
      var was, e := before[Find(before, EntryKey<Vm>, id)], after[Find(after, EntryKey<Vm>, id)];
      var change := DiffVm(was.value, e.value);
      ChangeFromAt(before, was, e, VmDiff, QuietVm);
      if !change.IsEmpty() {
        changed := changed + [change];
      }
      rest := rest - {id};
    }
    AmongNone(after, EntryKey<Vm>);
  }
}
