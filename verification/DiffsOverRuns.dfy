/** What diffs show of merging: nothing ever goes, and a scan merged again shows nothing new. */
module DiffsOverRuns {
  import opened DiffLaws
  import opened Diffs
  import opened HostMerge
  import opened Inventories
  import opened Json
  import opened KeyedLists
  import opened Model
  import opened OrderedSets
  import opened Runs
  import opened ScanHistory
  import opened Sorting
  import opened Wrappers

  lemma {:induction false} MergedVmIds(a: Inv, b: Inv, clock: nat -> string)
    requires WellFormed(b)
    ensures Ids(MergeInv(a, b, clock).vms) == Ids(a.vms) + Ids(b.vms)
  {
    forall k
      ensures k in Ids(MergeInv(a, b, clock).vms) <==> k in Ids(a.vms) || k in Ids(b.vms)
    {
      MergeVmGet(a, b, clock, k);
    }
  }

  lemma {:induction false} MergedHostIds(a: Inv, b: Inv, clock: nat -> string)
    requires WellFormed(b)
    ensures Ids(MergeInv(a, b, clock).hosts) == Ids(a.hosts) + Ids(b.hosts)
  {
    forall k
      ensures k in Ids(MergeInv(a, b, clock).hosts) <==> k in Ids(a.hosts) || k in Ids(b.hosts)
    {
      MergeHostGet(a, b, clock, k);
    }
  }

  /** Against the state before a merge, the state after it never shows a host or VM as removed. */
  lemma {:induction false} MergeRemovesNothing(a: Inv, b: Inv, clock: nat -> string, d: InventoryDiff)
    requires WellFormed(a) && WellFormed(b) && IsDiff(a, MergeInv(a, b, clock), d)
    ensures d.hostsRemoved == [] && d.vmsRemoved == []
  {
    hide MergeInv, OnlyIn, Changes;
    var r := MergeInv(a, b, clock);
    MergedHostIds(a, b, clock);
    MergedVmIds(a, b, clock);
    OnlyInEmptyIff(a.hosts, r.hosts);
    OnlyInEmptyIff(a.vms, r.vms);
    EmptyTogether(d.hostsRemoved, OnlyIn(a.hosts, r.hosts));
    EmptyTogether(d.vmsRemoved, OnlyIn(a.vms, r.vms));
  }

  /** A list joined with itself keeps its elements as often as it had them, exactly when none was repeated. */
  lemma {:induction false} JoinedWithItselfIff(s: seq<string>)
    ensures multiset(s) == multiset(Union(s, s)) <==> NoDup(s)
  {
    DedupeTail(s, s);
    DedupeElements(s);
    if NoDup(s) {
      DedupeNoDup(s);
    }
    if multiset(s) == multiset(Dedupe(s)) {
      DistinctReordered(s, Dedupe(s), Itself);
      forall i, j | 0 <= i < j < |s|
        ensures s[i] != s[j]
      {
        assert Itself(s[i]) != Itself(s[j]);
      }
    }
  }

  lemma {:induction false} LabelsAgain(h: Host, t1: string, t2: string)
    ensures LabelsAgree(Stamped(h, t1), MergeHost(Stamped(h, t1), h, t2))
  {
    hide ServiceLabel;
    var s := Stamped(h, t1);
    var m := MergeHost(s, h, t2);
    assert m.services == PutAll(h.services, h.services, ServiceKey);
    forall k
      ensures LabelAt(s, k) == LabelAt(m, k)
    {
      PutAllLast(h.services, h.services, ServiceKey, k);
    }
  }

  /** A record just taken over from a scan agrees with its merge with the same sighting, up to repeated addresses. */
  lemma {:induction false} NewHostAgainIff(h: Host, t1: string, t2: string)
    ensures HostsAgree(Stamped(h, t1), MergeHost(Stamped(h, t1), h, t2)) <==> NoDup(h.addresses)
  {
    hide LabelsAgree, Union, NoDup, AddServices, Updated;
    JoinedWithItselfIff(h.addresses);
    LabelsAgain(h, t1, t2);
  }

  lemma {:induction false} KnownHostAgain(x: Host, h: Host, t1: string, t2: string)
    ensures HostsAgree(MergeHost(x, h, t1), MergeHost(MergeHost(x, h, t1), h, t2))
  {
    MergeHostIdempotent(x, h, t1, t2);
  }

  ghost predicate FreshlyTaken(a: Inv, b: Inv, k: string) {
    k in Ids(b.hosts) && k !in Ids(a.hosts)
  }

  lemma {:induction false} HostAgainIff(a: Inv, b: Inv, t1: nat -> string, t2: nat -> string, k: string)
    requires WellFormed(b)
    requires k in Ids(a.hosts) + Ids(b.hosts)
    ensures var once := MergeInv(a, b, t1);
            var x, y := RecordAt(once.hosts, k), RecordAt(MergeInv(once, b, t2).hosts, k);
            && x.Some? && y.Some?
            && (HostsAgree(x.value, y.value) <==>
                  (FreshlyTaken(a, b, k) ==> NoDup(RecordAt(b.hosts, k).value.addresses)))
  {
    hide HostsAgree, MergeInv, MergeHost, Stamped;
    var once := MergeInv(a, b, t1);
    var i := Find(b.hosts, EntryKey<Host>, k);
    MergeHostGet(a, b, t1, k);
    MergeHostGet(once, b, t2, k);
    if i == |b.hosts| {
      AgreesWithItself(RecordAt(a.hosts, k).value);
    } else if k in Ids(a.hosts) {
      KnownHostAgain(RecordAt(a.hosts, k).value, b.hosts[i].value, t1(i), t2(i));
    } else {
      NewHostAgainIff(b.hosts[i].value, t1(i), t2(i));
    }
  }

  lemma AgreesWithItself(h: Host)
    ensures HostsAgree(h, h)
  {
  }

  /**
   * Merging the same scan a second time is reported as no change - exactly when the scan does not bring a new host
   * with a repeated address, which the second merge would list only once.
   */
  lemma {:induction false} RescanIsQuietIff(a: Inv, b: Inv, t1: nat -> string, t2: nat -> string, d: InventoryDiff)
    requires WellFormed(a) && WellFormed(b)
    requires IsDiff(MergeInv(a, b, t1), MergeInv(MergeInv(a, b, t1), b, t2), d)
    ensures forall k :: FreshlyTaken(a, b, k) ==> RecordAt(b.hosts, k).Some?
    ensures d.IsEmpty() <==>
            forall k :: FreshlyTaken(a, b, k) ==> NoDup(RecordAt(b.hosts, k).value.addresses)
  {
    hide HostsAgree, VmsAgree, MergeInv, NoDup, IsDiff, RecordAt, FreshlyTaken;
    var once := MergeInv(a, b, t1);
    var twice := MergeInv(once, b, t2);
    MergeWellFormed(a, b, t1);
    MergeWellFormed(once, b, t2);
    DiffEmptyIff(once, twice, d);
    MergedHostIds(a, b, t1);
    MergedHostIds(once, b, t2);
    assert Ids(once.hosts) == Ids(twice.hosts) == Ids(a.hosts) + Ids(b.hosts);
    forall k | FreshlyTaken(a, b, k)
      ensures k in Ids(twice.hosts) && RecordAt(b.hosts, k).Some?
    {
      FreshIsListed(a, b, k);
    }
    VmsAgain(a, b, t1, t2);
    forall k | k in Ids(twice.hosts)
      ensures RecordAt(once.hosts, k).Some? && RecordAt(twice.hosts, k).Some?
      ensures HostsAgree(RecordAt(once.hosts, k).value, RecordAt(twice.hosts, k).value) <==>
              (FreshlyTaken(a, b, k) ==> NoDup(RecordAt(b.hosts, k).value.addresses))
    {
      HostAgainIff(a, b, t1, t2, k);
    }
  }

  lemma FreshIsListed(a: Inv, b: Inv, k: string)
    requires FreshlyTaken(a, b, k)
    ensures k in Ids(b.hosts) && RecordAt(b.hosts, k).Some?
  {
  }

  lemma {:induction false} VmsAgain(a: Inv, b: Inv, t1: nat -> string, t2: nat -> string)
    requires WellFormed(b)
    ensures var once := MergeInv(a, b, t1);
            var twice := MergeInv(once, b, t2);
            && Ids(once.vms) == Ids(twice.vms)
            && forall k :: k in Ids(twice.vms) ==> VmsAgree(RecordAt(once.vms, k).value, RecordAt(twice.vms, k).value)
  {
    hide MergeInv, WellFormed;
    var once := MergeInv(a, b, t1);
    var twice := MergeInv(once, b, t2);
    MergedVmIds(a, b, t1);
    MergedVmIds(once, b, t2);
    assert Ids(once.vms) == Ids(twice.vms);
    forall k | k in Ids(twice.vms)
      ensures VmsAgree(RecordAt(once.vms, k).value, RecordAt(twice.vms, k).value)
    {
      MergeVmGet(a, b, t1, k);
      MergeVmGet(once, b, t2, k);
    }
  }

  const TWICE := Host("ip:10.0.0.1", ["10.0.0.1", "10.0.0.1"], None, None, Unknown, None, [], [], [], [], [], [], None,
                      [], None, None, [])

  const EMPTY := Inv([], [], [], "", 1)

  /** A scan whose one host lists its address twice. */
  const TWICE_LISTED := Inv([Entry(TWICE.id, TWICE)], [], [], "", 1)

  /** Merging that scan a second time shows up as a change. */
  lemma {:induction false} RescanCanShow(once: Inv, t1: nat -> string, t2: nat -> string, d: InventoryDiff)
    ensures once == MergeInv(EMPTY, TWICE_LISTED, t1) && IsDiff(once, MergeInv(once, TWICE_LISTED, t2), d)
            ==> !d.IsEmpty()
  {
    hide MergeInv, IsDiff;
    var b, k := TWICE_LISTED, TWICE.id;
    FindDistinct(b.hosts, EntryKey<Host>, 0);
    assert b.hosts[0].key == k;
    assert FreshlyTaken(EMPTY, b, k) && RecordAt(b.hosts, k) == Some(TWICE);
    assert TWICE.addresses[0] == TWICE.addresses[1];
    if once == MergeInv(EMPTY, b, t1) && IsDiff(once, MergeInv(once, b, t2), d) {
      RescanIsQuietIff(EMPTY, b, t1, t2, d);
    }
  }
}
