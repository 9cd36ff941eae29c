/** The inventory repository: cumulative state and snapshot history over value trees, and every run of `save_merged`. */
module Repository {
  import opened Codec
  import opened Inventories
  import opened Json
  import opened Model
  import opened Snapshots
  import opened Wrappers
  import O = InventoryObject

  /** What a backend stores: one payload for the current inventory, one per snapshot id. */
  datatype Store = Store(current: Option<Json>, history: map<string, Json>)

  const EMPTY_STORE := Store(None, map[])

  function LoadFrom(s: Store, now: string): Decoded<Option<Inv>> {
    if s.current.None? then Ok(None)
    else
      var inv :- DecodeInv(s.current.value, now);
      Ok(Some(inv))
  }

  function Appended(s: Store, payload: Json, stamp: string): Store {
    s.(history := s.history[FreshId(s.history.Keys, stamp) := payload])
  }

  /** `save_merged` on the store: snapshot, load, merge, save. A load that fails leaves the snapshot behind. */
  function SavedMerged(s: Store, scan: Inv, keepHistory: bool, stamp: string, clock: nat -> string, now: string)
      : (Store, Decoded<Inv>) {
    var s1 := if keepHistory then Appended(s, EncodeInv(scan), stamp) else s;
    var prior := LoadFrom(s1, now);
    if prior.Err? then (s1, Err(prior.error))
    else
      var merged := if prior.value.Some? then MergeInv(prior.value.value, scan, clock) else scan;
      (s1.(current := Some(EncodeInv(merged))), Ok(merged))
  }

  /** The last `limit` of `ids` the way the slice `ids[-limit:]` cuts them. */
  function SliceLast<T>(ids: seq<T>, limit: int): (r: seq<T>) {
    if limit > 0 then (if limit <= |ids| then ids[|ids| - limit..] else ids)
    else if -limit <= |ids| then ids[-limit..]
    else []
  }

  /** The slice is the last `limit` ids for a positive limit; a limit of zero returns the whole history. */
  lemma SliceLastIff(ids: seq<string>, limit: nat)
    ensures |SliceLast(ids, limit)| <= limit <==> limit > 0 || ids == []
    ensures limit > 0 ==> SliceLast(ids, limit) == ids[if limit <= |ids| then |ids| - limit else 0..]
  {
  }

  lemma {:induction false} ZeroLimitReturnsAll()
    ensures SliceLast(["20240101T000000", "20240102T000000"], 0) == ["20240101T000000", "20240102T000000"]
  {
  }

  class InventoryRepository {
    var current: Option<Json>
    var history: map<string, Json>

    function State(): Store
      reads this
    {
      Store(current, history)
    }

    constructor ()
      ensures State() == EMPTY_STORE
    {
      current, history := None, map[];
    }

    method Load(now: string) returns (r: Decoded<Option<Inv>>)
      ensures r == LoadFrom(State(), now)
    {
      if current.None? { return Ok(None); }
      var decoded := DecodeInv(current.value, now);
      if decoded.Err? { return Err(decoded.error); }
      return Ok(Some(decoded.value));
    }

    method Save(inv: Inv)
      modifies this`current
      ensures current == Some(EncodeInv(inv))
    {
      current := Some(EncodeInv(inv));
    }

    method AppendSnapshot(inv: Inv, stamp: string) returns (id: string)
      modifies this`history
      ensures id !in old(history) && id == FreshId(old(history).Keys, stamp)
      ensures history == old(history)[id := EncodeInv(inv)]
    {
      id := PickId(history.Keys, stamp);
      history := history[id := EncodeInv(inv)];
    }

    method SnapshotIds() returns (ids: seq<string>)
      ensures StrictlySorted(ids) && Elements(ids) == history.Keys
    {
      ids := SortIds(history.Keys);
    }

    method LoadSnapshot(id: string, now: string) returns (r: Decoded<Option<Inv>>)
      ensures id !in history ==> r == Ok(None)
      ensures id in history && DecodeInv(history[id], now).Ok? ==> r == Ok(Some(DecodeInv(history[id], now).value))
      ensures id in history && DecodeInv(history[id], now).Err? ==> r == Err(DecodeInv(history[id], now).error)
    {
      if id !in history { return Ok(None); }
      var decoded := DecodeInv(history[id], now);
      if decoded.Err? { return Err(decoded.error); }
      return Ok(Some(decoded.value));
    }

    /** `snapshots(limit)`: every id comes from the history, so `load_snapshot` never answers `None` here. */
    method ListSnapshots(limit: Option<int>, now: string) returns (ids: seq<string>, r: Decoded<seq<(string, Inv)>>)
      ensures StrictlySorted(ids) && Elements(ids) == history.Keys
      ensures var cut := if limit.Some? then SliceLast(ids, limit.value) else ids;
              && (forall id :: id in cut ==> id in history)
              && r == ReadAll(history, cut, now)
    {
      ids := SnapshotIds();
      var cut := if limit.Some? then SliceLast(ids, limit.value) else ids;
      forall id | id in cut
        ensures id in history
      {
        assert id in Elements(ids);
      }
      var out: seq<(string, Inv)> := [];
      r := Ok(out);
      assert cut[..0] == [];
      for i := 0 to |cut|
        invariant r == ReadAll(history, cut[..i], now) && r == Ok(out)
      {
        assert cut[..i + 1][..i] == cut[..i];
        var inv := LoadSnapshot(cut[i], now);
        if inv.Err? {
          ReadAllStopsAt(history, cut, i, now);
          return ids, Err(inv.error);
        }
        out := out + [(cut[i], inv.value.value)];
        r := Ok(out);
      }
      assert cut[..|cut|] == cut;
    }

    /** `save_merged`; the fresh scan is snapshotted before the merge. */
    method SaveMerged(inventory: O.Inventory, keepHistory: bool, stamp: string, clock: nat -> string, now: string)
        returns (r: Decoded<O.Inventory>)
      modifies this
      ensures State() == SavedMerged(old(State()), old(inventory.Value()), keepHistory, stamp, clock, now).0
      ensures var expected := SavedMerged(old(State()), old(inventory.Value()), keepHistory, stamp, clock, now).1;
              if expected.Ok? then r.Ok? && r.value.Value() == expected.value
              else r == Err(expected.error)
    {
      if keepHistory {
        var _ := AppendSnapshot(inventory.Value(), stamp);
      }
      var prior := Load(now);
      if prior.Err? { return Err(prior.error); }
      var merged := inventory;
      if prior.value.Some? {
        merged := new O.Inventory(prior.value.value);
        merged.Merge(inventory, clock);
      }
      Save(merged.Value());
      r := Ok(merged);
    }
  }

  /** Loading the snapshots with these ids, in order; the first failure ends it. */
  function ReadAll(history: map<string, Json>, ids: seq<string>, now: string): Decoded<seq<(string, Inv)>>
    requires forall id :: id in ids ==> id in history
  {
    if ids == [] then Ok([])
    else
      var n := |ids| - 1;
      var before :- ReadAll(history, ids[..n], now);
      var inv :- DecodeInv(history[ids[n]], now);
      Ok(before + [(ids[n], inv)])
  }

  lemma {:induction false} ReadAllStopsAt(history: map<string, Json>, ids: seq<string>, i: nat, now: string)
    requires forall id :: id in ids ==> id in history
    requires i < |ids| && ReadAll(history, ids[..i], now).Ok? && DecodeInv(history[ids[i]], now).Err?
    ensures ReadAll(history, ids, now) == Err(DecodeInv(history[ids[i]], now).error)
  {
    var n := |ids| - 1;
    if i < n {
      assert ids[..n][..i] == ids[..i];
      ReadAllStopsAt(history, ids[..n], i, now);
    }
  }
}
