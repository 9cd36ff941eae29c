/** Whole runs of `save_merged` from an empty repository with history kept. */
module Runs {
  import opened Codec
  import opened Inventories
  import opened Json
  import opened KeyedLists
  import opened Model
  import opened Repository
  import opened ScanHistory
  import opened Snapshots
  import opened Wrappers

  /** One call: the scan, the stamp of its snapshot, and what the clocks read during the call. */
  datatype Call = Call(scan: Inv, stamp: string, clock: nat -> string, now: string)

  function Scanned(calls: seq<Call>): (r: seq<Inv>)
    ensures |r| == |calls| && forall i :: 0 <= i < |calls| ==> r[i] == calls[i].scan
  {
    seq(|calls|, i requires 0 <= i < |calls| => calls[i].scan)
  }

  function Stamps(calls: seq<Call>): (r: seq<string>)
    ensures |r| == |calls| && forall i :: 0 <= i < |calls| ==> r[i] == calls[i].stamp
  {
    seq(|calls|, i requires 0 <= i < |calls| => calls[i].stamp)
  }

  function Clocks(calls: seq<Call>): nat -> nat -> string {
    (i: nat) => if i < |calls| then calls[i].clock else (j: nat) => ""
  }

  /** The store after the calls, each on the store the one before left. */
  function Run(calls: seq<Call>): Store {
    if calls == [] then EMPTY_STORE
    else
      var n := |calls| - 1;
      SavedMerged(Run(calls[..n]), calls[n].scan, true, calls[n].stamp, calls[n].clock, calls[n].now).0
  }

  /** Scans are built by upserts, so their records are filed by id. */
  ghost predicate FiledScans(calls: seq<Call>) {
    AllWellFormed(Scanned(calls))
  }

  // ---- The cumulative state ----

  lemma UpsertHostWellFormed(inv: Inv, h: Host, now: string)
    requires WellFormed(inv)
    ensures WellFormed(inv.(hosts := UpsertHost(inv.hosts, h, now)))
  {
  }

  lemma {:induction false} UpsertHostsWellFormed(inv: Inv, more: seq<Host>, clock: nat -> string)
    requires WellFormed(inv)
    ensures WellFormed(inv.(hosts := UpsertHosts(inv.hosts, more, clock)))
  {
    if more != [] {
      var n := |more| - 1;
      UpsertHostsWellFormed(inv, more[..n], clock);
      UpsertHostWellFormed(inv.(hosts := UpsertHosts(inv.hosts, more[..n], clock)), more[n], clock(n));
    }
  }

  lemma {:induction false} UpsertVmsWellFormed(inv: Inv, more: seq<Vm>)
    requires WellFormed(inv)
    ensures WellFormed(inv.(vms := UpsertVms(inv.vms, more)))
  {
    if more != [] {
      var n := |more| - 1;
      UpsertVmsWellFormed(inv, more[..n]);
      UpsertDistinct(UpsertVms(inv.vms, more[..n]), Entry(more[n].id, more[n]), EntryKey<Vm>, TakeNew<Entry<Vm>>);
    }
  }

  /** Merging keeps records filed by id, whatever is merged in. */
  lemma {:induction false} MergeWellFormed(a: Inv, b: Inv, clock: nat -> string)
    requires WellFormed(a)
    ensures WellFormed(MergeInv(a, b, clock))
  {
    UpsertHostsWellFormed(a, Values(b.hosts), clock);
    UpsertVmsWellFormed(a.(hosts := UpsertHosts(a.hosts, Values(b.hosts), clock)), Values(b.vms));
  }

  lemma {:induction false} CumulativeWellFormed(scans: seq<Inv>, clocks: nat -> nat -> string)
    requires scans != [] && AllWellFormed(scans)
    ensures WellFormed(Cumulative(scans, clocks))
  {
    hide MergeInv;
    var n := |scans| - 1;
    if n != 0 {
      CumulativeWellFormed(scans[..n], clocks);
      MergeWellFormed(Cumulative(scans[..n], clocks), scans[n], clocks(n));
    }
  }

  lemma {:induction false} SameClocks(scans: seq<Inv>, c1: nat -> nat -> string, c2: nat -> nat -> string)
    requires scans != [] && forall i: nat :: i < |scans| ==> c1(i) == c2(i)
    ensures Cumulative(scans, c1) == Cumulative(scans, c2)
  {
    hide MergeInv;
    var n := |scans| - 1;
    if n != 0 {
      SameClocks(scans[..n], c1, c2);
    }
  }

  /** What is stored is the fold of all scans, however often it went through the value trees. */
  lemma {:induction false} RunStoresCumulative(calls: seq<Call>)
    requires calls != [] && FiledScans(calls)
    ensures Run(calls).current == Some(EncodeInv(Cumulative(Scanned(calls), Clocks(calls))))
  {
    hide MergeInv, EncodeInv, DecodeInv, WellFormed;
    var n := |calls| - 1;
    var front, c := calls[..n], calls[n];
    if n == 0 {
      assert Run(front) == EMPTY_STORE;
    } else {
      RunStoresCumulative(front);
      assert Scanned(calls)[..n] == Scanned(front);
      SameClocks(Scanned(front), Clocks(calls), Clocks(front));
      var before := Cumulative(Scanned(front), Clocks(front));
      LoadsBack(Scanned(front), Clocks(front), c.now);
    }
  }

  lemma {:induction false} LoadsBack(scans: seq<Inv>, clocks: nat -> nat -> string, now: string)
    requires scans != [] && AllWellFormed(scans)
    ensures var inv := Cumulative(scans, clocks); DecodeInv(EncodeInv(inv), now) == Ok(inv)
  {
    hide EncodeInv, DecodeInv, MergeInv, Cumulative;
    CumulativeWellFormed(scans, clocks);
    InventoryRoundTripIff(Cumulative(scans, clocks), now);
  }

  function HostIds(inv: Inv): set<string> { Ids(inv.hosts) }

  /** The ids any of the scans has seen. */
  ghost function SeenIds(scans: seq<Inv>): set<string> {
    if scans == [] then {} else SeenIds(scans[..|scans| - 1]) + HostIds(scans[|scans| - 1])
  }

  lemma {:induction false} CumulativeIdsAreSeen(scans: seq<Inv>, clocks: nat -> nat -> string)
    requires scans != [] && AllWellFormed(scans)
    ensures HostIds(Cumulative(scans, clocks)) == SeenIds(scans)
  {
    hide MergeInv, WellFormed, Ids;
    var n := |scans| - 1;
    if n == 0 {
      assert SeenIds(scans) == SeenIds(scans[..0]) + HostIds(scans[0]) == HostIds(scans[0]);
    } else {
      var front, x := scans[..n], scans[n];
      CumulativeIdsAreSeen(front, clocks);
      MergeIds(Cumulative(front, clocks), x, clocks(n));
    }
  }

  lemma {:induction false} MergeIds(c: Inv, x: Inv, clock: nat -> string)
    requires WellFormed(x)
    ensures HostIds(MergeInv(c, x, clock)) == HostIds(c) + HostIds(x)
  {
    forall k
      ensures k in HostIds(MergeInv(c, x, clock)) <==> k in HostIds(c) || k in HostIds(x)
    {
      MergeHostGet(c, x, clock, k);
    }
  }

  /** After every run the stored host ids are exactly the union over all scans: no later call drops one. */
  lemma {:induction false} StoredIdsAreTheUnion(calls: seq<Call>, now: string)
    requires calls != [] && FiledScans(calls)
    ensures var loaded := LoadFrom(Run(calls), now);
            loaded.Ok? && loaded.value.Some? && HostIds(loaded.value.value) == SeenIds(Scanned(calls))
  {
    hide EncodeInv, DecodeInv, MergeInv, WellFormed;
    RunStoresCumulative(calls);
    var inv := Cumulative(Scanned(calls), Clocks(calls));
    LoadsBack(Scanned(calls), Clocks(calls), now);
    CumulativeIdsAreSeen(Scanned(calls), Clocks(calls));
  }

  lemma {:induction false} SeenIdsGrow(scans: seq<Inv>, n: nat)
    requires n <= |scans|
    ensures SeenIds(scans[..n]) <= SeenIds(scans)
  {
    if n < |scans| {
      var front := scans[..|scans| - 1];
      SeenIdsGrow(front, n);
      assert front[..n] == scans[..n];
    } else {
      assert scans[..n] == scans;
    }
  }

  // ---- The snapshot history ----

  lemma {:induction false} RunHistory(calls: seq<Call>)
    requires calls != []
    ensures var n := |calls| - 1;
            var h := Run(calls[..n]).history;
            Run(calls).history == h[FreshId(h.Keys, calls[n].stamp) := EncodeInv(calls[n].scan)]
  {
    hide EncodeInv, DecodeInv, MergeInv, FreshId;
  }

  /** `h` holds exactly these payloads under these ids. */
  ghost predicate Holds(h: map<string, Json>, ids: seq<string>, payloads: seq<Json>) {
    && |ids| == |payloads|
    && h.Keys == Elements(ids)
    && forall i :: 0 <= i < |ids| ==> ids[i] in h && h[ids[i]] == payloads[i]
  }

  lemma {:induction false} HoldsOneMore(
      h: map<string, Json>, ids: seq<string>, payloads: seq<Json>, id: string, payload: Json)
    requires Holds(h, ids, payloads) && id !in h
    ensures Holds(h[id := payload], ids + [id], payloads + [payload])
  {
    assert Elements(ids + [id]) == Elements(ids) + {id};
  }

  function Payloads(calls: seq<Call>): (r: seq<Json>)
    ensures |r| == |calls| && forall i :: 0 <= i < |calls| ==> r[i] == EncodeInv(calls[i].scan)
  {
    seq(|calls|, i requires 0 <= i < |calls| => EncodeInv(calls[i].scan))
  }

  /** The history holds one entry per call: the i-th appended id carries the i-th raw scan, whatever came later. */
  lemma {:induction false} HistoryIsRaw(calls: seq<Call>)
    ensures Holds(Run(calls).history, AppendedIds(Stamps(calls)), Payloads(calls))
  {
    hide EncodeInv, Run, Holds, FreshId;
    if calls == [] {
      NoHistory();
    } else {
      var n := |calls| - 1;
      var front, c := calls[..n], calls[n];
      HistoryIsRaw(front);
      RunHistory(calls);
      var h, old_ := Run(front).history, AppendedIds(Stamps(front));
      HistoryKeys(h, old_, Payloads(front));
      var id := FreshId(h.Keys, c.stamp);
      HoldsOneMore(h, old_, Payloads(front), id, EncodeInv(c.scan));
      assert Stamps(calls)[..n] == Stamps(front);
      assert Payloads(calls) == Payloads(front) + [EncodeInv(c.scan)];
    }
  }

  lemma NoHistory()
    ensures Holds(Run([]).history, AppendedIds(Stamps([])), Payloads([]))
  {
  }

  lemma HistoryKeys(h: map<string, Json>, ids: seq<string>, payloads: seq<Json>)
    requires Holds(h, ids, payloads)
    ensures h.Keys == Elements(ids)
  {
  }

  /** The ids and raw scans of the calls, in call order. */
  function RawHistory(calls: seq<Call>): (r: seq<(string, Inv)>)
    ensures |r| == |calls|
  {
    var ids := AppendedIds(Stamps(calls));
    seq(|calls|, i requires 0 <= i < |calls| => (ids[i], calls[i].scan))
  }

  lemma {:induction false} ReadsRawHistory(calls: seq<Call>, n: nat, now: string)
    requires FiledScans(calls) && n <= |calls|
    requires forall id :: id in AppendedIds(Stamps(calls)) ==> id in Run(calls).history
    ensures ReadAll(Run(calls).history, AppendedIds(Stamps(calls))[..n], now) == Ok(RawHistory(calls)[..n])
    decreases n
  {
    hide EncodeInv, DecodeInv, WellFormed, AppendedIds, Run, Stamps, ReadAll;
    var ids, raw, h := AppendedIds(Stamps(calls)), RawHistory(calls), Run(calls).history;
    if n == 0 {
      ReadNothing(h, now);
      assert ids[..0] == [] && raw[..0] == [];
    } else {
      ReadsRawHistory(calls, n - 1, now);
      HistoryIsRaw(calls);
      ScanRoundTrips(calls, n - 1, now);
      ReadOneMore(h, ids[..n - 1], ids[n - 1], raw[..n - 1], calls[n - 1].scan, now);
      assert ids[..n] == ids[..n - 1] + [ids[n - 1]];
      assert raw[..n] == raw[..n - 1] + [(ids[n - 1], calls[n - 1].scan)];
    }
  }

  lemma ReadNothing(h: map<string, Json>, now: string)
    ensures ReadAll(h, [], now) == Ok([])
  {
  }

  lemma {:induction false} ReadOneMore(
      h: map<string, Json>, ids: seq<string>, id: string, read: seq<(string, Inv)>, inv: Inv, now: string)
    requires (forall i :: i in ids ==> i in h) && id in h
    requires ReadAll(h, ids, now) == Ok(read) && DecodeInv(h[id], now) == Ok(inv)
    ensures ReadAll(h, ids + [id], now) == Ok(read + [(id, inv)])
  {
    hide DecodeInv;
    assert (ids + [id])[..|ids|] == ids;
  }

  lemma {:induction false} ScanRoundTrips(calls: seq<Call>, i: nat, now: string)
    requires FiledScans(calls) && i < |calls|
    ensures DecodeInv(EncodeInv(calls[i].scan), now) == Ok(calls[i].scan)
  {
    hide EncodeInv, DecodeInv;
    assert WellFormed(Scanned(calls)[i]);
    InventoryRoundTripIff(calls[i].scan, now);
  }

  /** Stamps as the clock gives them: one width, non-decreasing, at most nine scans within one second. */
  ghost predicate OrderlyStamps(stamps: seq<string>) {
    FixedWidth(stamps) && NonDecreasing(stamps) && forall s :: Count(stamps, s) <= 9
  }

  /** Then listing the snapshots returns every raw scan, oldest first. */
  lemma {:induction false} SnapshotsAreTheScansInOrder(calls: seq<Call>, listed: seq<string>, now: string)
    requires FiledScans(calls) && OrderlyStamps(Stamps(calls))
    requires StrictlySorted(listed) && Elements(listed) == Run(calls).history.Keys
    ensures listed == AppendedIds(Stamps(calls))
    ensures (forall id :: id in listed ==> id in Run(calls).history)
            && ReadAll(Run(calls).history, listed, now) == Ok(RawHistory(calls))
  {
    hide AppendedIds, ReadAll, EncodeInv, DecodeInv, SavedMerged;
    var ids := AppendedIds(Stamps(calls));
    HistoryIsRaw(calls);
    SortedIsAppendOrderIff(Stamps(calls));
    SortedUnique(listed, ids);
    forall id | id in listed
      ensures id in Run(calls).history
    {
      assert id in Elements(listed);
    }
    ReadsRawHistory(calls, |calls|, now);
    assert ids[..|calls|] == ids && RawHistory(calls)[..|calls|] == RawHistory(calls);
  }

  // ---- Runs that do not always keep history ----

  /** `keep_history` decides about the snapshot and nothing else: the result and the cumulative state are the same. */
  lemma {:induction false} KeepHistoryOnlyRecords(
      s: Store, scan: Inv, stamp: string, clock: nat -> string, now: string)
    ensures var (kept, result), (dropped, same) :=
              SavedMerged(s, scan, true, stamp, clock, now), SavedMerged(s, scan, false, stamp, clock, now);
            && same == result && dropped.current == kept.current
            && dropped.history == s.history
            && exists id :: id !in s.history && kept.history == s.history[id := EncodeInv(scan)]
  {
    hide EncodeInv, DecodeInv, MergeInv, FreshId;
    assert FreshId(s.history.Keys, stamp) !in s.history;
  }

  /** The store after the calls, the i-th of which keeps history when `keep(i)` says so. */
  function RunKeeping(calls: seq<Call>, keep: nat -> bool): Store {
    if calls == [] then EMPTY_STORE
    else
      var n := |calls| - 1;
      var c := calls[n];
      SavedMerged(RunKeeping(calls[..n], keep), c.scan, keep(n), c.stamp, c.clock, c.now).0
  }

  /** The calls that keep history, in order. */
  function Kept(calls: seq<Call>, keep: nat -> bool): seq<Call> {
    if calls == [] then []
    else
      var n := |calls| - 1;
      Kept(calls[..n], keep) + if keep(n) then [calls[n]] else []
  }

  /**
   * Whichever calls keep history, the cumulative state is that of the run that always does, and the snapshots are those
   * of the run of just the calls that do: everything said of the history holds for them.
   */
  lemma {:induction false} RunKeepingIs(calls: seq<Call>, keep: nat -> bool)
    ensures RunKeeping(calls, keep).current == Run(calls).current
    ensures RunKeeping(calls, keep).history == Run(Kept(calls, keep)).history
  {
    hide EncodeInv, DecodeInv, MergeInv, FreshId;
    if calls != [] {
      var n := |calls| - 1;
      var c, k := calls[n], Kept(calls[..n], keep);
      RunKeepingIs(calls[..n], keep);
      assert k + [] == k;
      if keep(n) {
        RunHistory(k + [c]);
        assert (k + [c])[..|k|] == k;
      }
    }
  }
}
