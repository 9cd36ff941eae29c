/** What a diff says: complete, exact, reversible, and enough to patch the compared scalars. */
module DiffLaws {
  import opened Diffs
  import opened Flattening
  import opened Json
  import opened KeyedLists
  import opened Model
  import opened Sorting
  import opened Text
  import opened Wrappers

  // ---- What it means for two records to agree ----

  /** The label a host shows for a service key: that of its last service of the key. */
  function LabelAt(h: Host, k: string): Option<string> {
    var s := Last(h.services, ServiceKey, k);
    if s.Some? then Some(ServiceLabel(s.value)) else None
  }

  ghost predicate LabelsAgree(a: Host, b: Host) {
    forall k :: LabelAt(a, k) == LabelAt(b, k)
  }

  predicate HostScalarsAgree(a: Host, b: Host) {
    a.role == b.role && a.hostname == b.hostname && a.mac == b.mac && a.os == b.os && a.hypervisorId == b.hypervisorId
  }

  /** Agreement on everything the diff compares. */
  ghost predicate HostsAgree(a: Host, b: Host) {
    HostScalarsAgree(a, b) && multiset(a.addresses) == multiset(b.addresses) && LabelsAgree(a, b)
  }

  predicate VmScalarsAgree(a: Vm, b: Vm) {
    && a.powerState == b.powerState && a.vcpus == b.vcpus && a.memoryMb == b.memoryMb && a.guestOs == b.guestOs
    && a.hypervisorId == b.hypervisorId
  }

  predicate VmsAgree(a: Vm, b: Vm) {
    VmScalarsAgree(a, b) && multiset(a.addresses) == multiset(b.addresses)
  }

  // ---- One record ----

  lemma {:induction false} HostTable(a: Host, b: Host)
    ensures DriftOf(HOST_FIELDS, HostValue, a, b) ==
            Drift("hostname", TextValue(a.hostname), TextValue(b.hostname)) +
            Drift("mac", TextValue(a.mac), TextValue(b.mac)) +
            Drift("os", TextValue(a.os), TextValue(b.os)) +
            Drift("hypervisor", TextValue(a.hypervisorId), TextValue(b.hypervisorId))
  {
    hide Drift;
    assert HOST_FIELDS[..3][..2] == HOST_FIELDS[..2] && HOST_FIELDS[..2][..1] == HOST_FIELDS[..1];
    assert DriftOf(HOST_FIELDS[..1][..0], HostValue, a, b) == [];
    assert DriftOf(HOST_FIELDS[..1], HostValue, a, b) ==
           Drift("hostname", TextValue(a.hostname), TextValue(b.hostname));
    assert DriftOf(HOST_FIELDS[..2], HostValue, a, b) ==
           DriftOf(HOST_FIELDS[..1], HostValue, a, b) + Drift("mac", TextValue(a.mac), TextValue(b.mac));
    assert DriftOf(HOST_FIELDS[..3], HostValue, a, b) ==
           DriftOf(HOST_FIELDS[..2], HostValue, a, b) + Drift("os", TextValue(a.os), TextValue(b.os));
  }

  lemma {:induction false} VmTable(a: Vm, b: Vm)
    ensures DriftOf(VM_FIELDS, VmValue, a, b) ==
            Drift("power state", TextValue(Some(PowerName(a.powerState))), TextValue(Some(PowerName(b.powerState)))) +
            Drift("vcpus", NumberValue(a.vcpus), NumberValue(b.vcpus)) +
            Drift("memory (MB)", NumberValue(a.memoryMb), NumberValue(b.memoryMb)) +
            Drift("guest OS", TextValue(a.guestOs), TextValue(b.guestOs)) +
            Drift("hypervisor", TextValue(Some(a.hypervisorId)), TextValue(Some(b.hypervisorId)))
  {
    hide Drift, PowerName;
    var t := VM_FIELDS;
    assert t[..4][..3] == t[..3] && t[..3][..2] == t[..2] && t[..2][..1] == t[..1];
    assert DriftOf(t[..1][..0], VmValue, a, b) == [];
    assert DriftOf(t[..1], VmValue, a, b) ==
           Drift("power state", TextValue(Some(PowerName(a.powerState))), TextValue(Some(PowerName(b.powerState))));
    assert DriftOf(t[..2], VmValue, a, b) ==
           DriftOf(t[..1], VmValue, a, b) + Drift("vcpus", NumberValue(a.vcpus), NumberValue(b.vcpus));
    assert DriftOf(t[..3], VmValue, a, b) ==
           DriftOf(t[..2], VmValue, a, b) + Drift("memory (MB)", NumberValue(a.memoryMb), NumberValue(b.memoryMb));
    assert DriftOf(t[..4], VmValue, a, b) ==
           DriftOf(t[..3], VmValue, a, b) + Drift("guest OS", TextValue(a.guestOs), TextValue(b.guestOs));
  }

  lemma {:induction false} SameRoleIff(a: HostRole, b: HostRole)
    ensures RoleName(a) == RoleName(b) <==> a == b
  {
    RoleNameRoundTrip(a, RoleName(a));
    RoleNameRoundTrip(b, RoleName(b));
  }

  lemma {:induction false} SamePowerIff(a: PowerState, b: PowerState)
    ensures PowerName(a) == PowerName(b) <==> a == b
  {
    PowerNameRoundTrip(a, PowerName(a));
    PowerNameRoundTrip(b, PowerName(b));
  }

  lemma {:induction false} FieldDriftEmptyIff(a: Host, b: Host)
    ensures HostFieldDrift(a, b) == [] <==> HostScalarsAgree(a, b) && multiset(a.addresses) == multiset(b.addresses)
  {
    hide RoleName;
    HostTable(a, b);
    SameRoleIff(a.role, b.role);
  }

  lemma {:induction false} VmDiffEmptyIff(a: Vm, b: Vm)
    ensures VmDiff(a, b).IsEmpty() <==> VmsAgree(a, b)
  {
    hide PowerName;
    VmTable(a, b);
    SamePowerIff(a.powerState, b.powerState);
  }

  lemma {:induction false} OrderedEmptyIff<T>(s: seq<T>, key: T -> string)
    ensures Ordered(s, key) == [] <==> s == []
  {
    OrderedIsSorted(s, key);
    assert |multiset(s)| == |s| && |multiset(Ordered(s, key))| == |Ordered(s, key)|;
  }

  lemma {:induction false} LabelsOnlyInEmptyIff(these: seq<Service>, those: seq<Service>)
    ensures LabelsOnlyIn(these, those) == [] <==> KeySet(these, ServiceKey) <= KeySet(those, ServiceKey)
  {
    var ks := KeySet(these, ServiceKey) - KeySet(those, ServiceKey);
    var only := Among(these, ServiceKey, ks);
    FlatMapEmptyIff(only, OneLabel);
    forall k | k in ks
      ensures these[Find(these, ServiceKey, k)] in only
    {
      InAmong(these, ServiceKey, ks, these[Find(these, ServiceKey, k)]);
    }
    forall x | x in only
      ensures ServiceKey(x) in ks
    {
      InAmong(these, ServiceKey, ks, x);
    }
    if only != [] {
      assert only[0] in only;
    }
  }

  lemma {:induction false} LabelsByKey(h: Host)
    ensures var d := ServiceDict(h.services);
            && (forall k :: k in KeySet(d, ServiceKey) <==> Get(d, ServiceKey, k).Some?)
            && forall k :: LabelAt(h, k) ==
                 if Get(d, ServiceKey, k).Some? then Some(ServiceLabel(Get(d, ServiceKey, k).value)) else None
  {
    hide ServiceDict, ServiceLabel, ServiceKey;
    ServiceDictIs(h.services);
  }

  /** Same keys, and the same label under each of them. */
  lemma {:induction false} LabelsAgreeIff(a: Host, b: Host)
    ensures var was, is_ := ServiceDict(a.services), ServiceDict(b.services);
            LabelsAgree(a, b) <==>
            && KeySet(was, ServiceKey) == KeySet(is_, ServiceKey)
            && forall c :: !LabelMoved(was, is_, c)
  {
    hide ServiceDict, ServiceLabel;
    LabelsByKey(a);
    LabelsByKey(b);
    var was, is_ := ServiceDict(a.services), ServiceDict(b.services);
    hide LabelAt, KeySet;
    if LabelsAgree(a, b) {
      forall k
        ensures k in KeySet(was, ServiceKey) <==> k in KeySet(is_, ServiceKey)
      {
        assert LabelAt(a, k) == LabelAt(b, k);
      }
      forall c
        ensures !LabelMoved(was, is_, c)
      {
        assert LabelAt(a, c.field) == LabelAt(b, c.field);
      }
    } else {
      var k :| LabelAt(a, k) != LabelAt(b, k);
      if k in KeySet(was, ServiceKey) && k in KeySet(is_, ServiceKey) {
        assert LabelMoved(was, is_, FieldChange(k, TextValue(LabelAt(a, k)), TextValue(LabelAt(b, k))));
      }
    }
  }

  /** A host's change is empty exactly when the two records agree on everything compared. */
  lemma {:induction false} HostDiffEmptyIff(a: Host, b: Host)
    ensures HostDiff(a, b).IsEmpty() <==> HostsAgree(a, b)
  {
    hide HostFieldDrift, LabelsOnlyIn, ServiceDrifts, ServiceDict, LabelMoved, LabelsAgree, KeySet;
    var was, is_ := ServiceDict(a.services), ServiceDict(b.services);
    FieldDriftEmptyIff(a, b);
    OrderedEmptyIff(LabelsOnlyIn(is_, was), Itself);
    OrderedEmptyIff(LabelsOnlyIn(was, is_), Itself);
    OrderedEmptyIff(ServiceDrifts(was, is_), FieldName);
    LabelsOnlyInEmptyIff(is_, was);
    LabelsOnlyInEmptyIff(was, is_);
    ServiceDictIs(b.services);
    forall c
      ensures c in ServiceDrifts(was, is_) <==> LabelMoved(was, is_, c)
    {
      InServiceDrifts(was, is_, c);
    }
    assert ServiceDrifts(was, is_) != [] ==> ServiceDrifts(was, is_)[0] in ServiceDrifts(was, is_);
    LabelsAgreeIff(a, b);
  }

  // ---- Two dicts of records ----

  lemma {:induction false} AmongRecords<V>(d: seq<Entry<V>>, ids: set<string>, e: Entry<V>)
    requires IsDict(d)
    ensures e in Among(d, EntryKey, ids) <==> e.key in ids && RecordAt(d, e.key) == Some(e.value)
  {
    InAmong(d, EntryKey<V>, ids, e);
    if e in d {
      var i :| 0 <= i < |d| && d[i] == e;
      FindDistinct(d, EntryKey<V>, i);
    }
    if RecordAt(d, e.key) == Some(e.value) {
      var f := d[Find(d, EntryKey<V>, e.key)];
      assert f == Entry(e.key, e.value) == e;
    }
  }

  lemma {:induction false} InOnlyIn<V(!new)>(these: seq<Entry<V>>, those: seq<Entry<V>>, v: V)
    requires IsDict(these)
    ensures v in OnlyIn(these, those) <==>
            exists id :: id in Ids(these) - Ids(those) && RecordAt(these, id) == Some(v)
  {
    var ids := Ids(these) - Ids(those);
    var only := Among(these, EntryKey<V>, ids);
    InFlatMap(only, OneValue<V>, v);
    forall i | 0 <= i < |only|
      ensures only[i].key in ids && RecordAt(these, only[i].key) == Some(only[i].value)
    {
      AmongRecords(these, ids, only[i]);
    }
    if id :| id in ids && RecordAt(these, id) == Some(v) {
      AmongRecords(these, ids, Entry(id, v));
      var i :| 0 <= i < |only| && only[i] == Entry(id, v);
      assert v in OneValue(only[i]);
    }
  }

  lemma RecordIff<V>(d: seq<Entry<V>>, k: string)
    ensures RecordAt(d, k).Some? <==> k in Ids(d)
  {
  }

  lemma {:induction false} ChangeOfEntry<V, C>(
      before: seq<Entry<V>>, diff: (V, V) -> C, quiet: C -> bool, e: Entry<V>, c: C)
    ensures c in ChangeFrom(before, diff, quiet)(e) <==>
            var was := RecordAt(before, e.key);
            was.Some? && !quiet(c) && c == diff(was.value, e.value)
  {
  }

  /** Every change is that of some id both sides have. */
  lemma {:induction false} ChangeHasId<V(!new), C>(
      before: seq<Entry<V>>, after: seq<Entry<V>>, diff: (V, V) -> C, quiet: C -> bool, c: C) returns (id: string)
    requires IsDict(after) && c in Changes(before, after, diff, quiet)
    ensures id in Ids(before) * Ids(after) && !quiet(c)
    ensures c == diff(RecordAt(before, id).value, RecordAt(after, id).value)
  {
    hide Among, ChangeFrom, FlatMap;
    var ids := Ids(before) * Ids(after);
    var common := Among(after, EntryKey<V>, ids);
    InFlatMap(common, ChangeFrom(before, diff, quiet), c);
    var i :| 0 <= i < |common| && c in ChangeFrom(before, diff, quiet)(common[i]);
    AmongRecords(after, ids, common[i]);
    ChangeOfEntry(before, diff, quiet, common[i], c);
    id := common[i].key;
  }

  /** Every id both sides have brings its change, unless that is empty. */
  lemma {:induction false} IdHasChange<V(!new), C>(
      before: seq<Entry<V>>, after: seq<Entry<V>>, diff: (V, V) -> C, quiet: C -> bool, id: string)
    requires IsDict(after) && id in Ids(before) * Ids(after)
    ensures RecordAt(before, id).Some? && RecordAt(after, id).Some?
    ensures var c := diff(RecordAt(before, id).value, RecordAt(after, id).value);
            !quiet(c) ==> c in Changes(before, after, diff, quiet)
  {
    hide Among, ChangeFrom, FlatMap, Ids, RecordAt;
    RecordIff(before, id);
    RecordIff(after, id);
    var ids := Ids(before) * Ids(after);
    var common := Among(after, EntryKey<V>, ids);
    var e := Entry(id, RecordAt(after, id).value);
    var c := diff(RecordAt(before, id).value, e.value);
    AmongRecords(after, ids, e);
    ChangeOfEntry(before, diff, quiet, e, c);
    InFlatMap(common, ChangeFrom(before, diff, quiet), c);
  }

  lemma {:induction false} InChanges<V(!new), C>(
      before: seq<Entry<V>>, after: seq<Entry<V>>, diff: (V, V) -> C, quiet: C -> bool, c: C)
    requires IsDict(after)
    ensures c in Changes(before, after, diff, quiet) <==>
            exists id :: id in Ids(before) * Ids(after) && !quiet(c) &&
                         c == diff(RecordAt(before, id).value, RecordAt(after, id).value)
  {
    hide Changes, Ids, RecordAt;
    forall id | id in Ids(before) * Ids(after)
      ensures RecordAt(before, id).Some? && RecordAt(after, id).Some?
    {
      IdHasChange(before, after, diff, quiet, id);
    }
    if c in Changes(before, after, diff, quiet) {
      var id := ChangeHasId(before, after, diff, quiet, c);
    }
    if id :| id in Ids(before) * Ids(after) && !quiet(c) &&
             c == diff(RecordAt(before, id).value, RecordAt(after, id).value) {
      IdHasChange(before, after, diff, quiet, id);
    }
  }

  lemma {:induction false} FlatMapDistinct<T, V>(xs: seq<T>, key: T -> string, f: T -> seq<V>, id: V -> string)
    requires Distinct(xs, key)
    requires forall x :: x in xs ==> |f(x)| <= 1 && (f(x) != [] ==> id(f(x)[0]) == key(x))
    ensures Distinct(FlatMap(xs, f), id)
    ensures forall y :: y in FlatMap(xs, f) ==> exists i :: 0 <= i < |xs| && key(xs[i]) == id(y)
  {
    if xs != [] {
      var n := |xs| - 1;
      var front := xs[..n];
      assert xs[n] in xs && forall i :: 0 <= i < n ==> front[i] == xs[i] && front[i] in xs;
      FlatMapDistinct(front, key, f, id);
      DistinctSnoc(FlatMap(front, f), f(xs[n]), id);
    }
  }

  lemma {:induction false} DistinctSnoc<V>(s: seq<V>, t: seq<V>, id: V -> string)
    requires Distinct(s, id) && |t| <= 1
    requires forall y :: t != [] && y in s ==> id(y) != id(t[0])
    ensures Distinct(s + t, id)
  {
  }

  lemma {:induction false} DistinctCount<V>(s: seq<V>, id: V -> string, x: V)
    requires Distinct(s, id)
    ensures multiset(s)[x] == if x in s then 1 else 0
  {
    if s != [] {
      var n := |s| - 1;
      assert s == s[..n] + [s[n]];
      DistinctCount(s[..n], id, x);
    }
  }

  lemma {:induction false} TwiceCounted<V>(s: seq<V>, i: nat, j: nat)
    requires i < j < |s|
    ensures s[i] == s[j] ==> multiset(s)[s[i]] >= 2
  {
    assert s == s[..j] + [s[j]] + s[j + 1..] && s[i] in s[..j];
  }

  /** Reordering keeps keys distinct. */
  lemma {:induction false} DistinctReordered<V(!new)>(a: seq<V>, b: seq<V>, id: V -> string)
    requires multiset(a) == multiset(b) && Distinct(b, id)
    ensures Distinct(a, id) && (forall x :: x in a <==> x in b) && KeySet(a, id) == KeySet(b, id)
  {
    forall x
      ensures x in a <==> x in b
    {
      assert x in a <==> x in multiset(a);
      assert x in b <==> x in multiset(b);
    }
    forall i, j | 0 <= i < j < |a|
      ensures id(a[i]) != id(a[j])
    {
      DistinctCount(b, id, a[i]);
      var p :| 0 <= p < |b| && b[p] == a[i];
      assert a[j] in a;
      var q :| 0 <= q < |b| && b[q] == a[j];
      TwiceCounted(a, i, j);
    }
    forall k
      ensures k in KeySet(a, id) <==> k in KeySet(b, id)
    {
      if k in KeySet(a, id) { assert a[Find(a, id, k)] in b; }
      if k in KeySet(b, id) { assert b[Find(b, id, k)] in a; }
    }
  }

  ghost predicate Filed<V>(d: seq<Entry<V>>, id: V -> string) {
    IsDict(d) && forall e :: e in d ==> e.key == id(e.value)
  }

  lemma {:induction false} RecordFiled<V>(d: seq<Entry<V>>, id: V -> string, k: string)
    requires Filed(d, id) && k in Ids(d)
    ensures RecordAt(d, k).Some? && id(RecordAt(d, k).value) == k
  {
    assert d[Find(d, EntryKey<V>, k)] in d;
  }

  lemma {:induction false} OnlyInOnce<V(!new)>(these: seq<Entry<V>>, those: seq<Entry<V>>, id: V -> string)
    requires Filed(these, id)
    ensures var only := OnlyIn(these, those);
            && Distinct(only, id) && KeySet(only, id) == Ids(these) - Ids(those)
            && forall v :: v in only ==> RecordAt(these, id(v)) == Some(v)
  {
    var ids, only := Ids(these) - Ids(those), OnlyIn(these, those);
    AmongDistinct(these, EntryKey<V>, ids);
    forall e | e in Among(these, EntryKey<V>, ids)
      ensures e.key == id(e.value)
    {
      InAmong(these, EntryKey<V>, ids, e);
    }
    FlatMapDistinct(Among(these, EntryKey<V>, ids), EntryKey<V>, OneValue<V>, id);
    forall v | v in only
      ensures id(v) in ids && RecordAt(these, id(v)) == Some(v)
    {
      InOnlyIn(these, those, v);
      var k :| k in ids && RecordAt(these, k) == Some(v);
      RecordFiled(these, id, k);
    }
    forall k
      ensures k in KeySet(only, id) <==> k in ids
    {
      if k in ids {
        RecordFiled(these, id, k);
        InOnlyIn(these, those, RecordAt(these, k).value);
        var i :| 0 <= i < |only| && only[i] == RecordAt(these, k).value;
        HasKeyAt(only, id, i);
      }
      if k in KeySet(only, id) { assert only[Find(only, id, k)] in only; }
    }
  }

  lemma {:induction false} ChangesOnce<V(!new), C(!new)>(
      before: seq<Entry<V>>, after: seq<Entry<V>>, diff: (V, V) -> C, quiet: C -> bool,
      id: V -> string, changeId: C -> string)
    requires Filed(before, id) && Filed(after, id)
    requires forall a, b :: changeId(diff(a, b)) == id(b)
    ensures var all := Changes(before, after, diff, quiet);
            && Distinct(all, changeId)
            && (forall k :: k in KeySet(all, changeId) <==>
                  k in Ids(before) * Ids(after) && !quiet(diff(RecordAt(before, k).value, RecordAt(after, k).value)))
            && forall c :: c in all ==>
                 && changeId(c) in Ids(before) * Ids(after)
                 && c == diff(RecordAt(before, changeId(c)).value, RecordAt(after, changeId(c)).value)
  {
    var ids, all := Ids(before) * Ids(after), Changes(before, after, diff, quiet);
    AmongDistinct(after, EntryKey<V>, ids);
    forall e | e in Among(after, EntryKey<V>, ids)
      ensures e.key == id(e.value)
    {
      InAmong(after, EntryKey<V>, ids, e);
    }
    FlatMapDistinct(Among(after, EntryKey<V>, ids), EntryKey<V>, ChangeFrom(before, diff, quiet), changeId);
    forall c | c in all
      ensures changeId(c) in ids && !quiet(c)
      ensures c == diff(RecordAt(before, changeId(c)).value, RecordAt(after, changeId(c)).value)
    {
      InChanges(before, after, diff, quiet, c);
      var k :| k in ids && !quiet(c) && c == diff(RecordAt(before, k).value, RecordAt(after, k).value);
      RecordFiled(after, id, k);
    }
    forall k
      ensures k in KeySet(all, changeId) <==>
              k in ids && !quiet(diff(RecordAt(before, k).value, RecordAt(after, k).value))
    {
      if k in KeySet(all, changeId) { assert all[Find(all, changeId, k)] in all; }
      if k in ids && !quiet(diff(RecordAt(before, k).value, RecordAt(after, k).value)) {
        RecordFiled(after, id, k);
        var c := diff(RecordAt(before, k).value, RecordAt(after, k).value);
        InChanges(before, after, diff, quiet, c);
        var i :| 0 <= i < |all| && all[i] == c;
        HasKeyAt(all, changeId, i);
      }
    }
  }

  // ---- Complete and exact ----

  /** The ids both sides have whose records agree. */
  ghost function Unchanged<V>(before: seq<Entry<V>>, after: seq<Entry<V>>, agree: (V, V) -> bool): set<string> {
    set k | k in Ids(before) * Ids(after) && agree(RecordAt(before, k).value, RecordAt(after, k).value)
  }

  /**
   * Every id of either side is in exactly one of the three lists, or unchanged; each list names it once; what is
   * listed is the new record, the old record, or the change between the two.
   */
  ghost predicate Exact<V, C>(
      before: seq<Entry<V>>, after: seq<Entry<V>>, added: seq<V>, removed: seq<V>, changed: seq<C>,
      diff: (V, V) -> C, agree: (V, V) -> bool, id: V -> string, changeId: C -> string)
  {
    var a, r, c := KeySet(added, id), KeySet(removed, id), KeySet(changed, changeId);
    var u := Unchanged(before, after, agree);
    && Distinct(added, id) && Distinct(removed, id) && Distinct(changed, changeId)
    && a !! r !! c !! u && a + r + c + u == Ids(before) + Ids(after)
    && a == Ids(after) - Ids(before) && r == Ids(before) - Ids(after)
    && (forall v :: v in added ==> RecordAt(after, id(v)) == Some(v))
    && (forall v :: v in removed ==> RecordAt(before, id(v)) == Some(v))
    && (forall x :: x in changed ==>
          && changeId(x) in Ids(before) * Ids(after)
          && x == diff(RecordAt(before, changeId(x)).value, RecordAt(after, changeId(x)).value))
  }

  lemma {:induction false} ListsAreExact<V(!new), C(!new)>(
      before: seq<Entry<V>>, after: seq<Entry<V>>, added: seq<V>, removed: seq<V>, changed: seq<C>,
      diff: (V, V) -> C, quiet: C -> bool, agree: (V, V) -> bool, id: V -> string, changeId: C -> string)
    requires Filed(before, id) && Filed(after, id)
    requires forall a, b :: changeId(diff(a, b)) == id(b) && (quiet(diff(a, b)) <==> agree(a, b))
    requires multiset(added) == multiset(OnlyIn(after, before))
    requires multiset(removed) == multiset(OnlyIn(before, after))
    requires multiset(changed) == multiset(Changes(before, after, diff, quiet))
    ensures Exact(before, after, added, removed, changed, diff, agree, id, changeId)
  {
    hide OnlyIn, Changes, Ids, KeySet, Distinct, RecordAt, Filed, Unchanged;
    OnlyInOnce(after, before, id);
    OnlyInOnce(before, after, id);
    ChangesOnce(before, after, diff, quiet, id, changeId);
    DistinctReordered(added, OnlyIn(after, before), id);
    DistinctReordered(removed, OnlyIn(before, after), id);
    DistinctReordered(changed, Changes(before, after, diff, quiet), changeId);
    forall k
      ensures k in KeySet(changed, changeId) <==> k in Ids(before) * Ids(after) && k !in Unchanged(before, after, agree)
    {
      QuietIffUnchanged(before, after, diff, quiet, agree, k);
    }
    UnchangedIsCommon(before, after, agree);
    FourWays(Ids(before), Ids(after), KeySet(changed, changeId), Unchanged(before, after, agree));
  }

  lemma UnchangedIsCommon<V>(before: seq<Entry<V>>, after: seq<Entry<V>>, agree: (V, V) -> bool)
    ensures Unchanged(before, after, agree) <= Ids(before) * Ids(after)
  {
  }

  /** Two sets of ids split into what only one side has and the two parts of what both have. */
  lemma FourWays(before: set<string>, after: set<string>, changed: set<string>, same: set<string>)
    requires same <= before * after
    requires forall k :: k in changed <==> k in before * after && k !in same
    ensures (after - before) !! (before - after) !! changed !! same
    ensures (after - before) + (before - after) + changed + same == before + after
  {
  }

  lemma {:induction false} QuietIffUnchanged<V(!new), C>(
      before: seq<Entry<V>>, after: seq<Entry<V>>, diff: (V, V) -> C, quiet: C -> bool,
      agree: (V, V) -> bool, k: string)
    requires forall a, b :: quiet(diff(a, b)) <==> agree(a, b)
    ensures k in Ids(before) * Ids(after) ==>
              && RecordAt(before, k).Some? && RecordAt(after, k).Some?
              && (quiet(diff(RecordAt(before, k).value, RecordAt(after, k).value)) <==>
                    k in Unchanged(before, after, agree))
  {
    RecordIff(before, k);
    RecordIff(after, k);
  }

  function HostId(h: Host): string { h.id }

  function HostChangeId(c: HostChange): string { c.id }

  function VmId(v: Vm): string { v.id }

  function VmChangeId(c: VmChange): string { c.id }

  /** The diff of two inventories filed by id is complete and exact, for hosts and for VMs. */
  lemma {:induction false} DiffIsExact(before: Inv, after: Inv, d: InventoryDiff)
    requires WellFormed(before) && WellFormed(after) && IsDiff(before, after, d)
    ensures Exact(before.hosts, after.hosts, d.hostsAdded, d.hostsRemoved, d.hostsChanged,
                  HostDiff, HostsAgree, HostId, HostChangeId)
    ensures Exact(before.vms, after.vms, d.vmsAdded, d.vmsRemoved, d.vmsChanged, VmDiff, VmsAgree, VmId, VmChangeId)
  {
    hide HostsAgree, VmsAgree, Exact;
    forall a, b
      ensures HostChangeId(HostDiff(a, b)) == HostId(b) && (QuietHost(HostDiff(a, b)) <==> HostsAgree(a, b))
    {
      HostDiffEmptyIff(a, b);
    }
    forall a, b
      ensures VmChangeId(VmDiff(a, b)) == VmId(b) && (QuietVm(VmDiff(a, b)) <==> VmsAgree(a, b))
    {
      VmDiffEmptyIff(a, b);
    }
    ListsAreExact(before.hosts, after.hosts, d.hostsAdded, d.hostsRemoved, d.hostsChanged,
                  HostDiff, QuietHost, HostsAgree, HostId, HostChangeId);
    ListsAreExact(before.vms, after.vms, d.vmsAdded, d.vmsRemoved, d.vmsChanged,
                  VmDiff, QuietVm, VmsAgree, VmId, VmChangeId);
  }

  lemma {:induction false} SideEmptyIff<V(!new), C(!new)>(
      before: seq<Entry<V>>, after: seq<Entry<V>>, added: seq<V>, removed: seq<V>, changed: seq<C>,
      diff: (V, V) -> C, quiet: C -> bool)
    requires IsDict(before) && IsDict(after)
    requires multiset(added) == multiset(OnlyIn(after, before))
    requires multiset(removed) == multiset(OnlyIn(before, after))
    requires multiset(changed) == multiset(Changes(before, after, diff, quiet))
    ensures added == [] && removed == [] && changed == [] <==>
            && Ids(before) == Ids(after)
            && forall k :: k in Ids(after) ==> quiet(diff(RecordAt(before, k).value, RecordAt(after, k).value))
  {
    EmptyTogether(added, OnlyIn(after, before));
    EmptyTogether(removed, OnlyIn(before, after));
    EmptyTogether(changed, Changes(before, after, diff, quiet));
    OnlyInEmptyIff(after, before);
    OnlyInEmptyIff(before, after);
    ChangesEmptyIff(before, after, diff, quiet);
  }

  lemma {:induction false} EmptyTogether<T>(a: seq<T>, b: seq<T>)
    requires multiset(a) == multiset(b)
    ensures a == [] <==> b == []
  {
    assert |multiset(a)| == |a| && |multiset(b)| == |b|;
  }

  lemma {:induction false} OnlyInEmptyIff<V(!new)>(these: seq<Entry<V>>, those: seq<Entry<V>>)
    requires IsDict(these)
    ensures OnlyIn(these, those) == [] <==> Ids(these) <= Ids(those)
  {
    var only := OnlyIn(these, those);
    if only != [] {
      InOnlyIn(these, those, only[0]);
    }
    var missing := Ids(these) - Ids(those);
    if missing == {} {
      assert forall k :: k in Ids(these) ==> k in missing || k in Ids(those);
    } else {
      var k :| k in missing;
      var v := RecordAt(these, k).value;
      InOnlyIn(these, those, v);
      assert RecordAt(these, k) == Some(v) && v in only;
    }
  }

  lemma {:induction false} ChangesEmptyIff<V(!new), C>(
      before: seq<Entry<V>>, after: seq<Entry<V>>, diff: (V, V) -> C, quiet: C -> bool)
    requires IsDict(after)
    ensures Changes(before, after, diff, quiet) == [] <==>
            forall k :: k in Ids(before) * Ids(after) ==>
              quiet(diff(RecordAt(before, k).value, RecordAt(after, k).value))
  {
    var all := Changes(before, after, diff, quiet);
    if all != [] {
      InChanges(before, after, diff, quiet, all[0]);
    }
    forall k | k in Ids(before) * Ids(after) && !quiet(diff(RecordAt(before, k).value, RecordAt(after, k).value))
      ensures all != []
    {
      InChanges(before, after, diff, quiet, diff(RecordAt(before, k).value, RecordAt(after, k).value));
    }
  }

  /** The diff is empty exactly when both sides have the same ids and agree under each of them. */
  lemma {:induction false} DiffEmptyIff(before: Inv, after: Inv, d: InventoryDiff)
    requires IsDict(before.hosts) && IsDict(before.vms) && IsDict(after.hosts) && IsDict(after.vms)
    requires IsDiff(before, after, d)
    ensures d.IsEmpty() <==>
            && Ids(before.hosts) == Ids(after.hosts)
            && (forall k :: k in Ids(after.hosts) ==>
                  HostsAgree(RecordAt(before.hosts, k).value, RecordAt(after.hosts, k).value))
            && Ids(before.vms) == Ids(after.vms)
            && (forall k :: k in Ids(after.vms) ==>
                  VmsAgree(RecordAt(before.vms, k).value, RecordAt(after.vms, k).value))
  {
    hide HostDiff, VmDiff, HostsAgree, VmsAgree;
    SideEmptyIff(before.hosts, after.hosts, d.hostsAdded, d.hostsRemoved, d.hostsChanged, HostDiff, QuietHost);
    SideEmptyIff(before.vms, after.vms, d.vmsAdded, d.vmsRemoved, d.vmsChanged, VmDiff, QuietVm);
    forall a, b
      ensures QuietHost(HostDiff(a, b)) <==> HostsAgree(a, b)
    {
      HostDiffEmptyIff(a, b);
    }
    forall a, b
      ensures QuietVm(VmDiff(a, b)) <==> VmsAgree(a, b)
    {
      VmDiffEmptyIff(a, b);
    }
  }

  // ---- Reversal ----

  function ReversedField(c: FieldChange): FieldChange {
    FieldChange(c.field, c.after, c.before)
  }

  function ReversedFields(fields: seq<FieldChange>): (r: seq<FieldChange>)
    ensures |r| == |fields| && forall i :: 0 <= i < |r| ==> r[i] == ReversedField(fields[i])
  {
    seq(|fields|, i requires 0 <= i < |fields| => ReversedField(fields[i]))
  }

  /** A host change read backwards, for the record `was` it leads back to. */
  function ReversedHost(c: HostChange, was: Host): HostChange {
    HostChange(was.id, HostLabel(was), ReversedFields(c.fields), c.servicesRemoved, c.servicesAdded,
               ReversedFields(c.servicesChanged))
  }

  function ReversedVm(c: VmChange, was: Vm): VmChange {
    VmChange(was.id, was.name, ReversedFields(c.fields))
  }

  lemma ReversedConcat(a: seq<FieldChange>, b: seq<FieldChange>)
    ensures ReversedFields(a + b) == ReversedFields(a) + ReversedFields(b)
  {
  }

  lemma DriftReversed(name: string, x: FieldValue, y: FieldValue)
    ensures ReversedFields(Drift(name, x, y)) == Drift(name, y, x)
  {
  }

  lemma {:induction false} DriftOfReversed<F, R>(fields: seq<(F, string)>, value: (R, F) -> FieldValue, a: R, b: R)
    ensures ReversedFields(DriftOf(fields, value, a, b)) == DriftOf(fields, value, b, a)
  {
    if fields != [] {
      var n := |fields| - 1;
      var x, y := value(a, fields[n].0), value(b, fields[n].0);
      DriftOfReversed(fields[..n], value, a, b);
      DriftReversed(fields[n].1, x, y);
      ReversedConcat(DriftOf(fields[..n], value, a, b), Drift(fields[n].1, x, y));
    }
  }

  lemma AddressDriftReversed(a: seq<string>, b: seq<string>)
    ensures ReversedFields(AddressDrift(a, b)) == AddressDrift(b, a)
  {
  }

  lemma {:induction false} FieldDriftReversed(a: Host, b: Host)
    ensures ReversedFields(HostFieldDrift(a, b)) == HostFieldDrift(b, a)
  {
    var role := Drift("role", TextValue(Some(RoleName(a.role))), TextValue(Some(RoleName(b.role))));
    var table, addresses := DriftOf(HOST_FIELDS, HostValue, a, b), AddressDrift(a.addresses, b.addresses);
    hide RoleName, HostValue, AddressDrift, Drift, ReversedFields;
    ReversedConcat(role, table);
    ReversedConcat(role + table, addresses);
    DriftReversed("role", TextValue(Some(RoleName(a.role))), TextValue(Some(RoleName(b.role))));
    DriftOfReversed(HOST_FIELDS, HostValue, a, b);
    AddressDriftReversed(a.addresses, b.addresses);
  }

  lemma {:induction false} ServiceDriftsDistinct(before: seq<Service>, after: seq<Service>)
    requires Distinct(after, ServiceKey)
    ensures Distinct(ServiceDrifts(before, after), FieldName)
  {
    hide ServiceKey, ServiceLabel;
    var ks := KeySet(before, ServiceKey) * KeySet(after, ServiceKey);
    AmongDistinct(after, ServiceKey, ks);
    FlatMapDistinct(Among(after, ServiceKey, ks), ServiceKey, DriftFrom(before), FieldName);
  }

  lemma {:induction false} SameElements<V(!new)>(a: seq<V>, b: seq<V>, id: V -> string)
    requires Distinct(a, id) && Distinct(b, id) && forall x :: x in a <==> x in b
    ensures multiset(a) == multiset(b)
  {
    forall x
      ensures multiset(a)[x] == multiset(b)[x]
    {
      DistinctCount(a, id, x);
      DistinctCount(b, id, x);
    }
  }

  lemma {:induction false} ReversedMembers(s: seq<FieldChange>, c: FieldChange)
    ensures c in ReversedFields(s) <==> ReversedField(c) in s
  {
    if c in ReversedFields(s) {
      var i :| 0 <= i < |s| && ReversedFields(s)[i] == c;
      assert s[i] == ReversedField(c);
    }
    if ReversedField(c) in s {
      var i :| 0 <= i < |s| && s[i] == ReversedField(c);
      assert ReversedFields(s)[i] == c;
    }
  }

  lemma LabelMovedReversed(a: seq<Service>, b: seq<Service>, c: FieldChange)
    ensures LabelMoved(b, a, c) <==> LabelMoved(a, b, ReversedField(c))
  {
  }

  lemma {:induction false} ServiceDriftsReversed(a: seq<Service>, b: seq<Service>)
    requires Distinct(a, ServiceKey) && Distinct(b, ServiceKey)
    ensures Ordered(ServiceDrifts(b, a), FieldName) == ReversedFields(Ordered(ServiceDrifts(a, b), FieldName))
  {
    hide ServiceDrifts, LabelMoved, ServiceKey;
    var there, back := ServiceDrifts(a, b), ServiceDrifts(b, a);
    var r := ReversedFields(Ordered(there, FieldName));
    ServiceDriftsDistinct(a, b);
    ServiceDriftsDistinct(b, a);
    OrderedIsSorted(there, FieldName);
    OrderedIsSorted(back, FieldName);
    DistinctReordered(Ordered(there, FieldName), there, FieldName);
    DistinctReordered(Ordered(back, FieldName), back, FieldName);
    forall c
      ensures c in Ordered(back, FieldName) <==> c in r
    {
      ReversedMembers(Ordered(there, FieldName), c);
      InServiceDrifts(b, a, c);
      InServiceDrifts(a, b, ReversedField(c));
      LabelMovedReversed(a, b, c);
    }
    SameElements(Ordered(back, FieldName), r, FieldName);
    DistinctToldApart(Ordered(back, FieldName), FieldName);
    OrderIsUnique(Ordered(back, FieldName), r, FieldName);
  }

  lemma DistinctToldApart<V>(s: seq<V>, id: V -> string)
    requires Distinct(s, id)
    ensures ToldApart(s, id)
  {
  }

  /** Diffing backwards swaps added with removed services and before with after in every change, and nothing else. */
  lemma {:induction false} HostDiffReversed(a: Host, b: Host)
    ensures HostDiff(b, a) == ReversedHost(HostDiff(a, b), a)
  {
    hide HostFieldDrift, LabelsOnlyIn, ServiceDrifts, ServiceDict;
    FieldDriftReversed(a, b);
    ServiceDictIs(a.services);
    ServiceDictIs(b.services);
    ServiceDriftsReversed(ServiceDict(a.services), ServiceDict(b.services));
  }

  lemma {:induction false} VmDiffReversed(a: Vm, b: Vm)
    ensures VmDiff(b, a) == ReversedVm(VmDiff(a, b), a)
  {
    hide VmValue, AddressDrift;
    DriftOfReversed(VM_FIELDS, VmValue, a, b);
    AddressDriftReversed(a.addresses, b.addresses);
    ReversedConcat(DriftOf(VM_FIELDS, VmValue, a, b), AddressDrift(a.addresses, b.addresses));
  }

  /** Every change of `there` appears in `back`, reversed. */
  ghost predicate AppearsReversed<V, C>(
      there: seq<C>, back: seq<C>, before: seq<Entry<V>>, changeId: C -> string, reversed: (C, V) -> C)
  {
    forall c :: c in there ==>
      RecordAt(before, changeId(c)).Some? && reversed(c, RecordAt(before, changeId(c)).value) in back
  }

  lemma {:induction false} ChangesReversed<V(!new), C(!new)>(
      before: seq<Entry<V>>, after: seq<Entry<V>>, there: seq<C>, back: seq<C>,
      diff: (V, V) -> C, quiet: C -> bool, id: V -> string, changeId: C -> string, reversed: (C, V) -> C)
    requires Filed(before, id) && Filed(after, id)
    requires forall a, b :: changeId(diff(a, b)) == id(b)
    requires forall a, b :: diff(b, a) == reversed(diff(a, b), a) && (quiet(diff(a, b)) <==> quiet(diff(b, a)))
    requires multiset(there) == multiset(Changes(before, after, diff, quiet))
    requires multiset(back) == multiset(Changes(after, before, diff, quiet))
    ensures AppearsReversed(there, back, before, changeId, reversed)
  {
    forall c | c in there
      ensures RecordAt(before, changeId(c)).Some? && reversed(c, RecordAt(before, changeId(c)).value) in back
    {
      assert c in multiset(there);
      InChanges(before, after, diff, quiet, c);
      var k := ChangeHasId(before, after, diff, quiet, c);
      RecordFiled(after, id, k);
      RecordFiled(before, id, k);
      var x, y := RecordAt(before, k).value, RecordAt(after, k).value;
      assert !quiet(diff(y, x)) && changeId(c) == k;
      InChanges(after, before, diff, quiet, diff(y, x));
      assert diff(y, x) in multiset(back);
    }
  }

  /** The diff of the swapped inventories is the diff read backwards. */
  lemma {:induction false} DiffReversed(before: Inv, after: Inv, d: InventoryDiff, e: InventoryDiff)
    requires WellFormed(before) && WellFormed(after) && IsDiff(before, after, d) && IsDiff(after, before, e)
    ensures multiset(e.hostsAdded) == multiset(d.hostsRemoved) && multiset(e.hostsRemoved) == multiset(d.hostsAdded)
    ensures multiset(e.vmsAdded) == multiset(d.vmsRemoved) && multiset(e.vmsRemoved) == multiset(d.vmsAdded)
    ensures AppearsReversed(d.hostsChanged, e.hostsChanged, before.hosts, HostChangeId, ReversedHost)
    ensures AppearsReversed(e.hostsChanged, d.hostsChanged, after.hosts, HostChangeId, ReversedHost)
    ensures AppearsReversed(d.vmsChanged, e.vmsChanged, before.vms, VmChangeId, ReversedVm)
    ensures AppearsReversed(e.vmsChanged, d.vmsChanged, after.vms, VmChangeId, ReversedVm)
    ensures e.IsEmpty() <==> d.IsEmpty()
  {
    hide HostDiff, VmDiff, ReversedHost, ReversedVm, AppearsReversed, Changes, OnlyIn;
    EveryHostReverses();
    EveryVmReverses();
    ChangesReversed(before.hosts, after.hosts, d.hostsChanged, e.hostsChanged,
                    HostDiff, QuietHost, HostId, HostChangeId, ReversedHost);
    ChangesReversed(after.hosts, before.hosts, e.hostsChanged, d.hostsChanged,
                    HostDiff, QuietHost, HostId, HostChangeId, ReversedHost);
    ChangesReversed(before.vms, after.vms, d.vmsChanged, e.vmsChanged,
                    VmDiff, QuietVm, VmId, VmChangeId, ReversedVm);
    ChangesReversed(after.vms, before.vms, e.vmsChanged, d.vmsChanged,
                    VmDiff, QuietVm, VmId, VmChangeId, ReversedVm);
    EmptyTogether(d.hostsAdded, e.hostsRemoved);
    EmptyTogether(d.hostsRemoved, e.hostsAdded);
    EmptyTogether(d.vmsAdded, e.vmsRemoved);
    EmptyTogether(d.vmsRemoved, e.vmsAdded);
    EmptyReversed(d.hostsChanged, e.hostsChanged, before.hosts, after.hosts, HostChangeId, ReversedHost);
    EmptyReversed(d.vmsChanged, e.vmsChanged, before.vms, after.vms, VmChangeId, ReversedVm);
  }

  lemma {:induction false} EmptyReversed<V, C>(there: seq<C>, back: seq<C>, before: seq<Entry<V>>, after: seq<Entry<V>>,
                            changeId: C -> string, reversed: (C, V) -> C)
    requires AppearsReversed(there, back, before, changeId, reversed)
    requires AppearsReversed(back, there, after, changeId, reversed)
    ensures there == [] <==> back == []
  {
    assert there != [] ==> there[0] in there;
    assert back != [] ==> back[0] in back;
  }

  lemma {:induction false} EveryHostReverses()
    ensures forall a, b :: HostChangeId(HostDiff(a, b)) == HostId(b)
    ensures forall a, b :: HostDiff(b, a) == ReversedHost(HostDiff(a, b), a)
    ensures forall a, b :: QuietHost(HostDiff(a, b)) <==> QuietHost(HostDiff(b, a))
  {
    forall a, b
      ensures HostDiff(b, a) == ReversedHost(HostDiff(a, b), a)
      ensures QuietHost(HostDiff(a, b)) <==> QuietHost(HostDiff(b, a))
    {
      HostDiffReversed(a, b);
      HostDiffReversed(b, a);
    }
  }

  lemma {:induction false} EveryVmReverses()
    ensures forall a, b :: VmChangeId(VmDiff(a, b)) == VmId(b)
    ensures forall a, b :: VmDiff(b, a) == ReversedVm(VmDiff(a, b), a)
    ensures forall a, b :: QuietVm(VmDiff(a, b)) <==> QuietVm(VmDiff(b, a))
  {
    forall a, b
      ensures VmDiff(b, a) == ReversedVm(VmDiff(a, b), a)
      ensures QuietVm(VmDiff(a, b)) <==> QuietVm(VmDiff(b, a))
    {
      VmDiffReversed(a, b);
      VmDiffReversed(b, a);
    }
  }

  // ---- Patching ----

  /** Writing one changed scalar into a host; the address change is for display and is skipped. */
  function PatchHost(h: Host, c: FieldChange): Host {
    if c.after.NumberValue? then h
    else if c.field == "role" then
      if c.after.text.Some? && ParseRole(c.after.text.value).Some? then
        h.(role := ParseRole(c.after.text.value).value)
      else h
    else if c.field == "hostname" then h.(hostname := c.after.text)
    else if c.field == "mac" then h.(mac := c.after.text)
    else if c.field == "os" then h.(os := c.after.text)
    else if c.field == "hypervisor" then h.(hypervisorId := c.after.text)
    else h
  }

  function PatchVm(v: Vm, c: FieldChange): Vm {
    if c.after.NumberValue? then
      if c.field == "vcpus" then v.(vcpus := c.after.number)
      else if c.field == "memory (MB)" then v.(memoryMb := c.after.number)
      else v
    else if c.field == "guest OS" then v.(guestOs := c.after.text)
    else if c.after.text.None? then v
    else if c.field == "power state" then
      if ParsePower(c.after.text.value).Some? then v.(powerState := ParsePower(c.after.text.value).value) else v
    else if c.field == "hypervisor" then v.(hypervisorId := c.after.text.value)
    else v
  }

  function Patched<R>(r: R, fields: seq<FieldChange>, patch: (R, FieldChange) -> R): R {
    if fields == [] then r else patch(Patched(r, fields[..|fields| - 1], patch), fields[|fields| - 1])
  }

  lemma {:induction false} PatchedConcat<R>(
      r: R, a: seq<FieldChange>, b: seq<FieldChange>, patch: (R, FieldChange) -> R)
    ensures Patched(r, a + b, patch) == Patched(Patched(r, a, patch), b, patch)
  {
    if b == [] {
      assert a + b == a;
    } else {
      PatchedConcat(r, a, b[..|b| - 1], patch);
      assert (a + b)[..|a + b| - 1] == a + b[..|b| - 1];
    }
  }

  lemma {:induction false} PatchedDrift<R>(
      r: R, name: string, x: FieldValue, y: FieldValue, patch: (R, FieldChange) -> R)
    ensures Patched(r, Drift(name, x, y), patch) == if x == y then r else patch(r, FieldChange(name, x, y))
  {
    if x != y {
      assert Drift(name, x, y)[..0] == [];
    }
  }

  lemma {:induction false} PatchedAddresses(h: Host, a: seq<string>, b: seq<string>)
    ensures Patched(h, AddressDrift(a, b), PatchHost) == h
  {
    assert "addresses"[0] == 'a';
    if multiset(a) != multiset(b) {
      assert AddressDrift(a, b)[..0] == [];
    }
  }

  lemma {:induction false} FieldsInOrder(a: Host, b: Host)
    ensures HostDiff(a, b).fields ==
            Drift("role", TextValue(Some(RoleName(a.role))), TextValue(Some(RoleName(b.role)))) +
            Drift("hostname", TextValue(a.hostname), TextValue(b.hostname)) +
            Drift("mac", TextValue(a.mac), TextValue(b.mac)) +
            Drift("os", TextValue(a.os), TextValue(b.os)) +
            Drift("hypervisor", TextValue(a.hypervisorId), TextValue(b.hypervisorId)) +
            AddressDrift(a.addresses, b.addresses)
  {
    hide Drift, AddressDrift, RoleName, LabelsOnlyIn, ServiceDrifts, ServiceDict, HostLabel;
    HostTable(a, b);
  }

  /** Writing the `after` values into the old host gives the new host's compared scalars and touches nothing else. */
  lemma {:induction false} PatchGivesNewScalars(a: Host, b: Host)
    ensures Patched(a, HostDiff(a, b).fields, PatchHost) ==
            a.(role := b.role, hostname := b.hostname, mac := b.mac, os := b.os, hypervisorId := b.hypervisorId)
  {
    hide Patched, Drift, AddressDrift, RoleName, PatchHost, HostDiff;
    var f0 := Drift("role", TextValue(Some(RoleName(a.role))), TextValue(Some(RoleName(b.role))));
    var f1 := Drift("hostname", TextValue(a.hostname), TextValue(b.hostname));
    var f2 := Drift("mac", TextValue(a.mac), TextValue(b.mac));
    var f3 := Drift("os", TextValue(a.os), TextValue(b.os));
    var f4 := Drift("hypervisor", TextValue(a.hypervisorId), TextValue(b.hypervisorId));
    FieldsInOrder(a, b);
    var p1 := a.(role := b.role);
    var p2 := p1.(hostname := b.hostname);
    var p3 := p2.(mac := b.mac);
    var p4 := p3.(os := b.os);
    var p5 := p4.(hypervisorId := b.hypervisorId);
    PatchRole(a, b);
    PatchHostname(p1, b.hostname);
    ThenPatched(a, f0, p1, f1, p2, PatchHost);
    PatchMac(p2, b.mac);
    ThenPatched(a, f0 + f1, p2, f2, p3, PatchHost);
    PatchOs(p3, b.os);
    ThenPatched(a, f0 + f1 + f2, p3, f3, p4, PatchHost);
    PatchHypervisor(p4, b.hypervisorId);
    ThenPatched(a, f0 + f1 + f2 + f3, p4, f4, p5, PatchHost);
    PatchedAddresses(p5, a.addresses, b.addresses);
    ThenPatched(a, f0 + f1 + f2 + f3 + f4, p5, AddressDrift(a.addresses, b.addresses), p5, PatchHost);
  }

  lemma {:induction false} ThenPatched<R>(r: R, first: seq<FieldChange>, mid: R, then_: seq<FieldChange>, last: R,
                       patch: (R, FieldChange) -> R)
    requires Patched(r, first, patch) == mid && Patched(mid, then_, patch) == last
    ensures Patched(r, first + then_, patch) == last
  {
    PatchedConcat(r, first, then_, patch);
  }

  lemma {:induction false} PatchRole(a: Host, b: Host)
    ensures Patched(a, Drift("role", TextValue(Some(RoleName(a.role))), TextValue(Some(RoleName(b.role)))), PatchHost)
            == a.(role := b.role)
  {
    PatchedDrift(a, "role", TextValue(Some(RoleName(a.role))), TextValue(Some(RoleName(b.role))), PatchHost);
    SameRoleIff(a.role, b.role);
    RoleNameRoundTrip(b.role, RoleName(b.role));
  }

  lemma {:induction false} PatchHostname(h: Host, s: Option<string>)
    ensures Patched(h, Drift("hostname", TextValue(h.hostname), TextValue(s)), PatchHost) == h.(hostname := s)
  {
    PatchedDrift(h, "hostname", TextValue(h.hostname), TextValue(s), PatchHost);
    assert "role"[0] == 'r' && "hostname"[1] == 'o' && "mac"[0] == 'm' && "os"[0] == 'o' && "hypervisor"[1] == 'y';
  }

  lemma {:induction false} PatchMac(h: Host, s: Option<string>)
    ensures Patched(h, Drift("mac", TextValue(h.mac), TextValue(s)), PatchHost) == h.(mac := s)
  {
    PatchedDrift(h, "mac", TextValue(h.mac), TextValue(s), PatchHost);
    assert "role"[0] == 'r' && "hostname"[1] == 'o' && "mac"[0] == 'm' && "os"[0] == 'o' && "hypervisor"[1] == 'y';
  }

  lemma {:induction false} PatchOs(h: Host, s: Option<string>)
    ensures Patched(h, Drift("os", TextValue(h.os), TextValue(s)), PatchHost) == h.(os := s)
  {
    PatchedDrift(h, "os", TextValue(h.os), TextValue(s), PatchHost);
    assert "role"[0] == 'r' && "hostname"[1] == 'o' && "mac"[0] == 'm' && "os"[0] == 'o' && "hypervisor"[1] == 'y';
  }

  lemma {:induction false} PatchHypervisor(h: Host, s: Option<string>)
    ensures Patched(h, Drift("hypervisor", TextValue(h.hypervisorId), TextValue(s)), PatchHost) == h.(hypervisorId := s)
  {
    PatchedDrift(h, "hypervisor", TextValue(h.hypervisorId), TextValue(s), PatchHost);
    assert "role"[0] == 'r' && "hostname"[1] == 'o' && "mac"[0] == 'm' && "os"[0] == 'o' && "hypervisor"[1] == 'y';
  }

  lemma {:induction false} VmPatchGivesNewScalars(a: Vm, b: Vm)
    ensures Patched(a, VmDiff(a, b).fields, PatchVm) ==
            a.(powerState := b.powerState, vcpus := b.vcpus, memoryMb := b.memoryMb, guestOs := b.guestOs,
               hypervisorId := b.hypervisorId)
  {
    hide Patched, Drift, AddressDrift, PowerName, PatchVm;
    var f0 := Drift("power state", TextValue(Some(PowerName(a.powerState))), TextValue(Some(PowerName(b.powerState))));
    var f1 := Drift("vcpus", NumberValue(a.vcpus), NumberValue(b.vcpus));
    var f2 := Drift("memory (MB)", NumberValue(a.memoryMb), NumberValue(b.memoryMb));
    var f3 := Drift("guest OS", TextValue(a.guestOs), TextValue(b.guestOs));
    var f4 := Drift("hypervisor", TextValue(Some(a.hypervisorId)), TextValue(Some(b.hypervisorId)));
    VmTable(a, b);
    var p1 := a.(powerState := b.powerState);
    var p2 := p1.(vcpus := b.vcpus);
    var p3 := p2.(memoryMb := b.memoryMb);
    var p4 := p3.(guestOs := b.guestOs);
    var p5 := p4.(hypervisorId := b.hypervisorId);
    PatchPower(a, b);
    PatchVcpus(p1, b.vcpus);
    ThenPatched(a, f0, p1, f1, p2, PatchVm);
    PatchMemory(p2, b.memoryMb);
    ThenPatched(a, f0 + f1, p2, f2, p3, PatchVm);
    PatchGuestOs(p3, b.guestOs);
    ThenPatched(a, f0 + f1 + f2, p3, f3, p4, PatchVm);
    PatchVmHypervisor(p4, b.hypervisorId);
    ThenPatched(a, f0 + f1 + f2 + f3, p4, f4, p5, PatchVm);
    PatchedVmAddresses(p5, a.addresses, b.addresses);
    ThenPatched(a, f0 + f1 + f2 + f3 + f4, p5, AddressDrift(a.addresses, b.addresses), p5, PatchVm);
  }

  lemma {:induction false} PatchPower(a: Vm, b: Vm)
    ensures Patched(a, Drift("power state", TextValue(Some(PowerName(a.powerState))),
                                            TextValue(Some(PowerName(b.powerState)))), PatchVm) ==
            a.(powerState := b.powerState)
  {
    PatchedDrift(a, "power state", TextValue(Some(PowerName(a.powerState))),
                 TextValue(Some(PowerName(b.powerState))), PatchVm);
    SamePowerIff(a.powerState, b.powerState);
    PowerNameRoundTrip(b.powerState, PowerName(b.powerState));
    assert "power state"[0] == 'p' && "guest OS"[0] == 'g';
  }

  lemma {:induction false} PatchVcpus(v: Vm, n: Option<int>)
    ensures Patched(v, Drift("vcpus", NumberValue(v.vcpus), NumberValue(n)), PatchVm) == v.(vcpus := n)
  {
    PatchedDrift(v, "vcpus", NumberValue(v.vcpus), NumberValue(n), PatchVm);
  }

  lemma {:induction false} PatchMemory(v: Vm, n: Option<int>)
    ensures Patched(v, Drift("memory (MB)", NumberValue(v.memoryMb), NumberValue(n)), PatchVm) == v.(memoryMb := n)
  {
    PatchedDrift(v, "memory (MB)", NumberValue(v.memoryMb), NumberValue(n), PatchVm);
    assert "memory (MB)"[0] == 'm' && "vcpus"[0] == 'v';
  }

  lemma {:induction false} PatchGuestOs(v: Vm, s: Option<string>)
    ensures Patched(v, Drift("guest OS", TextValue(v.guestOs), TextValue(s)), PatchVm) == v.(guestOs := s)
  {
    PatchedDrift(v, "guest OS", TextValue(v.guestOs), TextValue(s), PatchVm);
  }

  lemma {:induction false} PatchVmHypervisor(v: Vm, s: string)
    ensures Patched(v, Drift("hypervisor", TextValue(Some(v.hypervisorId)), TextValue(Some(s))), PatchVm) ==
            v.(hypervisorId := s)
  {
    PatchedDrift(v, "hypervisor", TextValue(Some(v.hypervisorId)), TextValue(Some(s)), PatchVm);
    assert "hypervisor"[0] == 'h' && "guest OS"[0] == 'g' && "power state"[0] == 'p';
  }

  lemma {:induction false} PatchedVmAddresses(v: Vm, a: seq<string>, b: seq<string>)
    ensures Patched(v, AddressDrift(a, b), PatchVm) == v
  {
    assert "addresses"[0] == 'a' && "guest OS"[0] == 'g' && "hypervisor"[0] == 'h' && "power state"[0] == 'p';
    if multiset(a) != multiset(b) {
      assert AddressDrift(a, b)[..0] == [];
    }
  }

  // ---- Names and order ----

  /** A change is filed under the record's new id and shown under its new name. */
  lemma {:induction false} ChangeIsNamed(a: Host, b: Host)
    ensures var c := HostDiff(a, b);
            && c.id == b.id
            && (b.hostname.Some? && b.hostname.value != "" ==> c.hostLabel == b.hostname.value)
            && (!(b.hostname.Some? && b.hostname.value != "") ==>
                  c.hostLabel == if b.addresses != [] && b.addresses[0] != "" then b.addresses[0] else b.id)
  {
    hide HostFieldDrift, LabelsOnlyIn, ServiceDrifts, ServiceDict;
  }

  lemma {:induction false} VmChangeIsNamed(a: Vm, b: Vm)
    ensures VmDiff(a, b).id == b.id && VmDiff(a, b).name == b.name
  {
  }

  /** What a list of hosts is ordered by: the first address, else the hostname, else the id. */
  ghost predicate Named(h: Host, name: string) {
    && (h.addresses != [] && h.addresses[0] != "" ==> name == h.addresses[0])
    && (!(h.addresses != [] && h.addresses[0] != "") ==>
          name == if h.hostname.Some? && h.hostname.value != "" then h.hostname.value else h.id)
  }

  /** Added and removed hosts stand in the order of those names, VMs in that of theirs, changes by their labels. */
  lemma {:induction false} ListsAreOrdered(before: Inv, after: Inv, d: InventoryDiff, i: nat, j: nat)
    requires IsDiff(before, after, d) && i < j
    ensures d.oldGeneratedAt == before.generatedAt && d.newGeneratedAt == after.generatedAt
    ensures j < |d.hostsAdded| ==>
              forall x, y :: Named(d.hostsAdded[i], x) && Named(d.hostsAdded[j], y) ==> AtMost(x, y)
    ensures j < |d.hostsRemoved| ==>
              forall x, y :: Named(d.hostsRemoved[i], x) && Named(d.hostsRemoved[j], y) ==> AtMost(x, y)
    ensures j < |d.hostsChanged| ==> AtMost(d.hostsChanged[i].hostLabel, d.hostsChanged[j].hostLabel)
    ensures j < |d.vmsAdded| ==> AtMost(d.vmsAdded[i].name, d.vmsAdded[j].name)
    ensures j < |d.vmsRemoved| ==> AtMost(d.vmsRemoved[i].name, d.vmsRemoved[j].name)
    ensures j < |d.vmsChanged| ==> AtMost(d.vmsChanged[i].name, d.vmsChanged[j].name)
  {
    hide AtMost, OnlyIn, Changes;
    NamedBySortKey(before, after, d);
    assert forall h, x :: Named(h, x) ==> x == HostSortKey(h);
  }

  lemma {:induction false} NamedBySortKey(before: Inv, after: Inv, d: InventoryDiff)
    requires IsDiff(before, after, d)
    ensures forall i, j :: 0 <= i < j < |d.hostsAdded| ==>
              AtMost(HostSortKey(d.hostsAdded[i]), HostSortKey(d.hostsAdded[j]))
    ensures forall i, j :: 0 <= i < j < |d.hostsRemoved| ==>
              AtMost(HostSortKey(d.hostsRemoved[i]), HostSortKey(d.hostsRemoved[j]))
  {
    hide AtMost, HostSortKey;
  }
}
