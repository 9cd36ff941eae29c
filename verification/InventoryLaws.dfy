/** What merging inventories guarantees: grouping and batching are irrelevant, nothing is lost, the last word wins. */
module InventoryLaws {
  import opened HostMerge
  import opened Inventories
  import opened Json
  import opened KeyedLists
  import opened Model
  import opened Wrappers

  // ---- Inventories up to their time stamps ----

  function Timeless(h: Host): Host {
    h.(firstSeen := None, lastSeen := None)
  }

  function TimelessHosts(d: seq<Entry<Host>>): (r: seq<Entry<Host>>)
    ensures |r| == |d|
    ensures forall i :: 0 <= i < |d| ==> r[i] == Entry(d[i].key, Timeless(d[i].value))
  {
    if d == [] then []
    else
      var n := |d| - 1;
      TimelessHosts(d[..n]) + [Entry(d[n].key, Timeless(d[n].value))]
  }

  function TimelessInv(inv: Inv): Inv {
    inv.(hosts := TimelessHosts(inv.hosts))
  }

  /** Two inventories that differ in first-seen and last-seen stamps only. */
  ghost predicate SameUpToTime(a: Inv, b: Inv) {
    TimelessInv(a) == TimelessInv(b)
  }

  ghost predicate SoundHost(h: Host) {
    DistinctServices(h) && IsDict(h.extra)
  }

  ghost predicate SoundEntry(e: Entry<Host>) {
    SoundHost(e.value)
  }

  /** What upserts build from nothing: records filed by id, service keys distinct within a host. */
  ghost predicate Sound(inv: Inv) {
    WellFormed(inv) && forall e :: e in inv.hosts ==> SoundHost(e.value)
  }

  lemma {:induction false} UpdatedIsDict<V(!new)>(a: seq<Entry<V>>, b: seq<Entry<V>>)
    requires IsDict(a)
    ensures IsDict(Updated(a, b))
  {
    UpsertAllDistinct(a, b, EntryKey<V>, TakeNew<Entry<V>>);
  }

  lemma {:induction false} MergeHostSound(a: Host, b: Host, now: string)
    requires SoundHost(a)
    ensures SoundHost(MergeHost(a, b, now))
  {
    UpsertAllDistinct(a.services, b.services, ServiceKey, TakeNew);
    UpdatedIsDict(a.extra, b.extra);
  }

  /** Soundness is kept by every upsert. */
  lemma {:induction false} UpsertHostSound(inv: Inv, h: Host, now: string)
    requires Sound(inv) && SoundHost(h)
    ensures Sound(inv.(hosts := UpsertHost(inv.hosts, h, now)))
  {
    var i := Find(inv.hosts, EntryKey<Host>, h.id);
    if i < |inv.hosts| {
      MergeHostSound(inv.hosts[i].value, h, now);
    }
  }

  lemma {:induction false} UpsertHostsSound(inv: Inv, more: seq<Host>, clock: nat -> string)
    requires Sound(inv) && forall h :: h in more ==> SoundHost(h)
    ensures Sound(inv.(hosts := UpsertHosts(inv.hosts, more, clock)))
  {
    if more != [] {
      var n := |more| - 1;
      UpsertHostsSound(inv, more[..n], clock);
      UpsertHostSound(inv.(hosts := UpsertHosts(inv.hosts, more[..n], clock)), more[n], clock(n));
    }
  }

  lemma {:induction false} UpsertVmsSound(inv: Inv, more: seq<Vm>)
    requires Sound(inv)
    ensures Sound(inv.(vms := UpsertVms(inv.vms, more)))
  {
    if more != [] {
      var n := |more| - 1;
      UpsertVmsSound(inv, more[..n]);
      UpsertDistinct(UpsertVms(inv.vms, more[..n]), Entry(more[n].id, more[n]), EntryKey<Vm>, TakeNew<Entry<Vm>>);
    }
  }

  /** Soundness is kept by merging. */
  lemma {:induction false} MergeSound(a: Inv, b: Inv, clock: nat -> string)
    requires Sound(a) && Sound(b)
    ensures Sound(MergeInv(a, b, clock))
  {
    UpsertHostsSound(a, Values(b.hosts), clock);
    UpsertVmsSound(a.(hosts := UpsertHosts(a.hosts, Values(b.hosts), clock)), Values(b.vms));
  }

  // ---- Merging is a keyed merge of host records up to time ----

  function CombineHosts(a: Entry<Host>, b: Entry<Host>): Entry<Host> {
    Entry(a.key, Timeless(MergeHost(a.value, b.value, "")))
  }

  lemma {:induction false} CombineHostsLaws()
    ensures KeepsKey(EntryKey, CombineHosts) && AssociativeOn(CombineHosts, SoundEntry)
  {
    forall x, y, z | SoundEntry(y)
      ensures CombineHosts(CombineHosts(x, y), z) == CombineHosts(x, CombineHosts(y, z))
    {
      MergeHostAssociative(x.value, y.value, z.value, "", "", "", "");
    }
    forall x, y | SoundEntry(x) && SoundEntry(y)
      ensures SoundEntry(CombineHosts(x, y))
    {
      MergeHostSound(x.value, y.value, "");
    }
  }

  lemma {:induction false} TimelessFind(d: seq<Entry<Host>>, k: string)
    ensures Find(TimelessHosts(d), EntryKey<Host>, k) == Find(d, EntryKey<Host>, k)
  {
    FindIs(TimelessHosts(d), EntryKey<Host>, k, Find(d, EntryKey<Host>, k));
  }

  lemma {:induction false} UpsertHostTimeless(d: seq<Entry<Host>>, h: Host, now: string)
    ensures TimelessHosts(UpsertHost(d, h, now)) ==
            Upsert(TimelessHosts(d), Entry(h.id, Timeless(h)), EntryKey<Host>, CombineHosts)
  {
    TimelessFind(d, h.id);
  }

  lemma {:induction false} UpsertHostsTimeless(d: seq<Entry<Host>>, more: seq<Entry<Host>>, clock: nat -> string)
    requires forall e :: e in more ==> e.key == e.value.id
    ensures TimelessHosts(UpsertHosts(d, Values(more), clock)) ==
            UpsertAll(TimelessHosts(d), TimelessHosts(more), EntryKey<Host>, CombineHosts)
  {
    if more != [] {
      var n := |more| - 1;
      UpsertHostsTimeless(d, more[..n], clock);
      assert Values(more)[..n] == Values(more[..n]);
      assert TimelessHosts(more)[..n] == TimelessHosts(more[..n]);
      UpsertHostTimeless(UpsertHosts(d, Values(more[..n]), clock), more[n].value, clock(n));
    }
  }

  lemma {:induction false} UpsertVmsIsPutAll(d: seq<Entry<Vm>>, more: seq<Entry<Vm>>)
    requires forall e :: e in more ==> e.key == e.value.id
    ensures UpsertVms(d, Values(more)) == PutAll(d, more, EntryKey<Vm>)
  {
    if more != [] {
      var n := |more| - 1;
      UpsertVmsIsPutAll(d, more[..n]);
      assert Values(more)[..n] == Values(more[..n]);
    }
  }

  /** Merging with the clock taken out. */
  function MergeTimeless(a: Inv, b: Inv): Inv {
    a.(hosts := UpsertAll(a.hosts, b.hosts, EntryKey<Host>, CombineHosts),
       vms := PutAll(a.vms, b.vms, EntryKey<Vm>),
       networks := AddNetworks(a.networks, b.networks))
  }

  lemma {:induction false} MergeIsTimeless(a: Inv, b: Inv, clock: nat -> string)
    requires FiledById(b)
    ensures TimelessInv(MergeInv(a, b, clock)) == MergeTimeless(TimelessInv(a), TimelessInv(b))
  {
    UpsertHostsTimeless(a.hosts, b.hosts, clock);
    UpsertVmsIsPutAll(a.vms, b.vms);
  }

  /** First-wins addition is associative whatever is repeated. */
  lemma {:induction false} AddNetworksAssociative(a: seq<Net>, b: seq<Net>, c: seq<Net>)
    ensures AddNetworks(AddNetworks(a, b), c) == AddNetworks(a, AddNetworks(b, c))
  {
    if c != [] {
      var front, z := c[..|c| - 1], c[|c| - 1];
      AddNetworksAssociative(a, b, front);
      var bf := AddNetworks(b, front);
      UpsertAllHas(a, bf, NetCidr, TakeOld, z.cidr);
      var i, ab := Find(bf, NetCidr, z.cidr), AddNetworks(a, bf);
      if i < |bf| {
        var j := Find(ab, NetCidr, z.cidr);
        assert bf[i := bf[i]] == bf && ab[j := ab[j]] == ab;
      } else {
        UpsertAllSnoc(a, bf, z, NetCidr, TakeOld);
      }
    }
  }

  /** What soundness means once the clock is out. */
  ghost predicate SoundTimeless(inv: Inv) {
    && IsDict(inv.hosts)
    && IsDict(inv.vms)
    && forall e :: e in inv.hosts ==> SoundEntry(e)
  }

  lemma TimelessSound(inv: Inv)
    requires Sound(inv)
    ensures SoundTimeless(TimelessInv(inv))
  {
  }

  lemma {:induction false} MergeTimelessSound(x: Inv, y: Inv)
    requires SoundTimeless(x) && SoundTimeless(y)
    ensures SoundTimeless(MergeTimeless(x, y))
  {
    CombineHostsLaws();
    UpsertAllDistinct(x.hosts, y.hosts, EntryKey<Host>, CombineHosts);
    UpsertAllOk(x.hosts, y.hosts, EntryKey<Host>, CombineHosts, SoundEntry);
    UpdatedIsDict(x.vms, y.vms);
  }

  /** Merging three inventories gives the same result up to time stamps however they are grouped. */
  lemma {:induction false} MergeAssociative(
      a: Inv, b: Inv, c: Inv, t1: nat -> string, t2: nat -> string, t3: nat -> string, t4: nat -> string)
    requires Sound(b) && Sound(c)
    ensures SameUpToTime(MergeInv(MergeInv(a, b, t1), c, t2), MergeInv(a, MergeInv(b, c, t3), t4))
  {
    MergeSound(b, c, t3);
    MergeIsTimeless(a, b, t1);
    MergeIsTimeless(MergeInv(a, b, t1), c, t2);
    MergeIsTimeless(b, c, t3);
    MergeIsTimeless(a, MergeInv(b, c, t3), t4);
    TimelessSound(b);
    TimelessSound(c);
    MergeTimelessAssociative(TimelessInv(a), TimelessInv(b), TimelessInv(c));
  }

  lemma {:induction false} MergeTimelessAssociative(x: Inv, y: Inv, z: Inv)
    requires SoundTimeless(y) && SoundTimeless(z)
    ensures MergeTimeless(MergeTimeless(x, y), z) == MergeTimeless(x, MergeTimeless(y, z))
  {
    CombineHostsLaws();
    UpsertAllAssociative(x.hosts, y.hosts, z.hosts, EntryKey<Host>, CombineHosts, SoundEntry);
    UpdatedAssociative(x.vms, y.vms, z.vms);
    AddNetworksAssociative(x.networks, y.networks, z.networks);
  }

  // ---- Batching a list of scans ----

  /** Any way of merging a list of scans: leaves are scans, every merge has its own clock. */
  datatype Batch = Scan(scan: Inv) | Merged(left: Batch, right: Batch, clock: nat -> string)

  function Result(b: Batch): Inv {
    match b
    case Scan(scan) => scan
    case Merged(left, right, clock) => MergeInv(Result(left), Result(right), clock)
  }

  function Scans(b: Batch): (r: seq<Inv>)
    ensures r != []
  {
    match b
    case Scan(scan) => [scan]
    case Merged(left, right, _) => Scans(left) + Scans(right)
  }

  /** One after the other, the way the repository does it. */
  function FoldTimeless(scans: seq<Inv>): Inv
    requires scans != []
  {
    var n := |scans| - 1;
    if n == 0 then TimelessInv(scans[0]) else MergeTimeless(FoldTimeless(scans[..n]), TimelessInv(scans[n]))
  }

  ghost predicate AllSound(scans: seq<Inv>) {
    forall s :: s in scans ==> Sound(s)
  }

  lemma {:induction false} BatchSound(b: Batch)
    requires AllSound(Scans(b))
    ensures Sound(Result(b))
  {
    match b
    case Scan(_) =>
      assert b.scan in Scans(b);
    case Merged(left, right, clock) =>
      BatchSound(left);
      BatchSound(right);
      MergeSound(Result(left), Result(right), clock);
  }

  lemma {:induction false} BatchFolds(b: Batch)
    requires AllSound(Scans(b))
    ensures TimelessInv(Result(b)) == FoldTimeless(Scans(b))
  {
    match b
    case Scan(_) =>
    case Merged(left, right, clock) =>
      BatchSound(right);
      BatchFolds(left);
      BatchFolds(right);
      MergeIsTimeless(Result(left), Result(right), clock);
      FoldConcat(Scans(left), Scans(right));
  }

  lemma {:induction false} FoldSound(scans: seq<Inv>)
    requires scans != [] && AllSound(scans)
    ensures SoundTimeless(FoldTimeless(scans))
  {
    var n := |scans| - 1;
    TimelessSound(scans[n]);
    if n != 0 {
      FoldSound(scans[..n]);
      MergeTimelessSound(FoldTimeless(scans[..n]), TimelessInv(scans[n]));
    }
  }

  lemma {:induction false} FoldSnoc(xs: seq<Inv>, z: Inv)
    requires xs != []
    ensures FoldTimeless(xs + [z]) == MergeTimeless(FoldTimeless(xs), TimelessInv(z))
  {
    assert (xs + [z])[..|xs|] == xs;
  }

  lemma {:induction false} FoldConcat(xs: seq<Inv>, ys: seq<Inv>)
    requires xs != [] && ys != [] && AllSound(ys)
    ensures FoldTimeless(xs + ys) == MergeTimeless(FoldTimeless(xs), FoldTimeless(ys))
  {
    hide MergeTimeless, TimelessInv, SoundTimeless, Sound;
    var n := |ys| - 1;
    var front, z := ys[..n], ys[n];
    assert ys == front + [z];
    if n == 0 {
      assert ys == [z];
      FoldSnoc(xs, z);
    } else {
      FoldConcat(xs, front);
      FoldSnoc(xs + front, z);
      FoldSnoc(front, z);
      assert xs + ys == xs + front + [z];
      FoldSound(front);
      TimelessSound(z);
      MergeTimelessAssociative(FoldTimeless(xs), FoldTimeless(front), TimelessInv(z));
    }
  }

  /** However a list of scans is batched, and whatever the clocks read, the merged inventory is the same up to time. */
  lemma {:induction false} BatchingIsIrrelevant(b1: Batch, b2: Batch)
    requires Scans(b1) == Scans(b2) && AllSound(Scans(b1))
    ensures SameUpToTime(Result(b1), Result(b2)) && Sound(Result(b1))
  {
    BatchFolds(b1);
    BatchFolds(b2);
    BatchSound(b1);
  }
}
