# myinventory: a verified model of the inventory pipeline

myinventory scans a network, merges every scan into a cumulative inventory, keeps each raw scan as a snapshot, and
answers questions about the two: what changed, what went stale, which host a virtual machine runs on. This project
models that pipeline in Dafny and proves what it promises over all inputs and all runs.

## How the model is laid out

| files | part of the program |
|---|---|
| `Wrappers`, `Text`, `Lists`, `Sorting` | Python's optional values, decimal rendering and string order, `dict.fromkeys`, dicts as item lists, `list.sort` |
| `Model` | services, hosts, virtual machines, networks, the state of an inventory, JSON value trees |
| `HostMerge`, `Inventories`, `InventoryObject`, `InventoryLaws` | `_merge_host`, the upserts, the `Inventory` object, and the algebra of merging |
| `ScanHistory`, `Runs` | what a whole history of scans leaves in the cumulative state and in the snapshots |
| `Codec`, `WireFormat`, `Snapshots`, `Repository` | `to_dict`/`from_dict` and the stored keys, the snapshot naming loop, both repository backends over value trees |
| `Diffs`, `ServiceDiffs`, `DiffLaws`, `DiffsOverRuns`, `Stale` | change tracking and stale hosts |
| `FileLocks`, `SerialLocks`, `FileLockObject` | the scan lock: as a protocol of processes, on runs without overlap, and as the object one process uses |
| `RateLimits`, `Sweeps` | the slot scheduler and the parallel sweep it paces |
| `Correlation`, `Classify`, `ClassifyLaws`, `Verdicts`, `Enrichment` | linking VMs to hosts, roles and tags and the evidence for them, the enrichment stage |
| `Profiles` | overlaying a profile on the configuration |
| `Leases`, `LeaseLaws`, `Hostnames` | DHCP lease files and the hostname enricher |

Code that changes state is a class or a method with loops, proved against a specification function; the laws are
lemmas about those functions. Dicts are lists of entries, so insertion order is part of every statement. Clock
readings, process ids, completion orders and probe outcomes are parameters and every statement holds for all of them.

## What the proofs found

* **Merging** three sightings of a host is independent of the grouping *exactly* when the middle sighting does not
  repeat a service key that the last one redefines (`MergeHostAssociativeIff`). Every inventory built by the program
  keeps service keys distinct, so scans can be batched in any way (`BatchingIsIrrelevant`).
* **Snapshot ids** sort into append order *exactly* when no stamp is used more than nine times
  (`SortedIsAppendOrderIff`): the tenth id of one second, `-10`, sorts before the second one, `-2`.
* **`snapshots(limit=0)`** returns the whole history although the docstring says "the last N" (`SliceLastIff`).
* **The scan lock** excludes *exactly* when creating and stamping, reading and judging, and judging and unlinking are
  each free of interference (`MutualExclusionIffAtomic`). The code guarantees none of the three, and the second race
  needs no crash: a lock released between the failed create and the read is taken for stale, and the unlink then hits
  the next holder's file. Reused PIDs never break exclusion; they can only keep a stale lock from being reclaimed. As
  it stands the lock is safe on every run in which no acquire or release overlaps another call (`SerialIsSafe`).
* **A `target_timeout` of zero** means no deadline, not an immediate one.
* **Classification** is settled after one pass without user rules and after two with them. One pass can be too few: a
  rule that makes a host a hypervisor sets the role in the first pass and only the second one adds the matching tag
  (`WitnessOfTwoPasses`). One is enough *exactly* when the rules do not change whether the host counts as a hypervisor,
  or the verdict on the role they leave is tagged anyway (`OnePassIsEnoughIff`).
* **Profile overlays** are associative *exactly* when every path where the outer layers have a mapping and the middle
  one has not is harmless: the last layer covers every key path of the first there (`AssociativeIff`). Never having
  such a path is sufficient, but not necessary (`BetweenCanBeHarmless`).
* **Merging the same scan twice** is reported as no change *exactly* when the scan brings no new host that lists one
  of its addresses twice (`RescanIsQuietIff`). The discovery and virtualization backends that come with the program give
  a host at most one address, so such a host can only come from an inventory file or from a backend added to it.
* **Lease files.** The ISC parser raises on a line that reads `lease ` followed by semicolons only
  (`MissingAddressIff`), although an enricher is documented never to raise. A dnsmasq file that happens to contain
  both `lease ` and `{` is taken for an ISC file and nothing is read from it (`DnsmasqRoundTripIff`).

## Model

| member | source | states |
|---|---|---|
| `OrderedSets.DedupeElements` | src/myinventory/models/inventory.py:141-143 | `_union` on one list keeps the same elements, each once |
| `OrderedSets.DedupeKeepsFirstOccurrenceOrder` | src/myinventory/models/inventory.py:141-143 | and in the order of their first occurrences |
| `OrderedSets.UnionAssociative` | src/myinventory/models/inventory.py:141-143 | the ordered union is associative, order included |
| `OrderedSets.UnionAbsorbs` | src/myinventory/models/inventory.py:141-143 | joining the same list again changes nothing |
| `KeyedLists.PutAllGet` | src/myinventory/models/host.py:92-98 | after any sequence of `add_service` calls a key that was added answers with the last service added for it, any other key as before |
| `KeyedLists.UpsertAllKeys` | src/myinventory/models/host.py:92-98 | the keys are those before followed by the new ones in first-insertion order |
| `KeyedLists.UpsertAllDistinct` | src/myinventory/models/host.py:92-98 | keys stay unique |
| `KeyedLists.PutAllAssociativeIff` | src/myinventory/models/host.py:92-98 | grouping three replace-or-append merges either way agrees exactly when no key of the last list is repeated in the middle one with another last element |
| `InventoryObject.AddService` | src/myinventory/models/host.py:92-98 | the in-place loop replaces the first service of the key or appends; the protocol and port of the service answer with it, every other protocol and port as before |
| `Model.ServiceKeyIff` | src/myinventory/models/service.py:29-32 | two services share a key exactly when they share protocol and port |
| `HostMerge.AddedServices` | src/myinventory/models/host.py:92-98 | after any sequence of `add_service` calls a protocol and port that was added answers with its last service, any other as before |
| `InventoryObject.MergeInto` | src/myinventory/models/inventory.py:110-138 | field by field, the code leaves the state the merge laws speak about |
| `InventoryObject.MergeScalars` | src/myinventory/models/inventory.py:112-121 | stamps, truthy scalars and role, and no other field |
| `HostMerge.MergeHostAssociativeIff` | src/myinventory/models/inventory.py:110-138 | merging is associative up to `last_seen`, order of every list included, exactly when no repeated service key of the middle host is redefined by the last one |
| `HostMerge.GroupingCanMatter` | src/myinventory/models/inventory.py:128-129 | three hosts whose grouping matters |
| `HostMerge.MergeHostAssociative` | src/myinventory/models/inventory.py:110-138 | in particular whenever the middle host has unique service keys |
| `HostMerge.MergeHostIdempotent` | src/myinventory/models/inventory.py:110-138 | re-merging the same host moves `last_seen` and nothing else, for any host |
| `HostMerge.MergedServices` | src/myinventory/models/inventory.py:128-129 | after a merge every protocol and port the incoming host lists answers with its last service there, and no other port is lost or changed |
| `HostMerge.SightingsScalars` | src/myinventory/models/inventory.py:112-121 | over any sequence of sightings each scalar, the role and each inspection list is the last non-empty one |
| `HostMerge.SightingsStamps` | src/myinventory/models/inventory.py:112-113 | `first_seen` is the first stamp any sighting carried, `last_seen` the time of the last merge |
| `HostMerge.SightingsLists` | src/myinventory/models/inventory.py:123-126 | addresses, tags, hosted VMs and sources are the ordered unions over all sightings |
| `HostMerge.SightingsServices` | src/myinventory/models/inventory.py:128-138 | starting from unique keys, services and extra stay insertion-ordered maps holding the last value per key over all sightings |
| `HostMerge.SightingsPorts` | src/myinventory/models/inventory.py:128-129 | over any sequence of sightings every protocol and port answers with the last service a later sighting lists for it, else with that of the first sighting |
| `InventoryObject.Inventory.UpsertHost` | src/myinventory/models/inventory.py:33-42 | new hosts are stamped and filed under their id, known ones merged in place; the returned host is the stored one |
| `InventoryObject.Inventory.UpsertVm` | src/myinventory/models/inventory.py:44-46 | the VM's id answers with the VM, every other id as before, and the ids keep their order, a new one last |
| `InventoryObject.Inventory.AddNetwork` | src/myinventory/models/inventory.py:48-50 | the first network of a cidr stays |
| `InventoryObject.Inventory.Merge` | src/myinventory/models/inventory.py:68-75 | networks, hosts and VMs in that order, each clock reading belonging to its host |
| `InventoryLaws.MergeAssociative` | src/myinventory/models/inventory.py:68-75 | merging inventories is associative up to timestamps, orders included |
| `InventoryLaws.BatchingIsIrrelevant` | src/myinventory/models/inventory.py:68-75 | any two ways to batch the same scans give the same inventory up to timestamps |
| `InventoryLaws.MergeSound` | src/myinventory/models/inventory.py:68-75 | merging keeps ids filed, dict keys unique and service keys unique |
| `InventoryLaws.AddNetworksAssociative` | src/myinventory/models/inventory.py:48-50 | first-wins networks are associative |
| `ScanHistory.CumulativeHostIds` | src/myinventory/models/inventory.py:68-75 | host ids after any scans are the union over the scans, in first-seen order |
| `ScanHistory.CumulativeVms` | src/myinventory/models/inventory.py:44-46 | each VM is its last version over all scans |
| `ScanHistory.CumulativeNetworks` | src/myinventory/models/inventory.py:48-50 | each network is its first version over all scans |
| `ScanHistory.CumulativeHost` | src/myinventory/models/inventory.py:33-42 | each host is the merge of exactly its own sightings in scan order, each at the time its scan was merged |
| `ScanHistory.CumulativeScalars` | src/myinventory/models/inventory.py:115-136 | after any scans hostname, MAC, OS, hypervisor, role and each inspection list of a host are the last non-empty ones reported for it |
| `ScanHistory.CumulativeLists` | src/myinventory/models/inventory.py:123-126 | its addresses, tags, hosted VMs and sources are the ordered unions over its sightings |
| `ScanHistory.CumulativeServices` | src/myinventory/models/inventory.py:128-138 | unless its first sighting repeats a service key, it keeps the last service and the last extra value per key, in first-seen order |
| `ScanHistory.CumulativePorts` | src/myinventory/models/inventory.py:128-129 | after any scans each protocol and port of a host answers with the last service its sightings list for it: scanning one port never loses another |
| `ScanHistory.CumulativeStamps` | src/myinventory/models/inventory.py:36-42 | `last_seen` is when its last scan was merged, `first_seen` what its sightings say or when it joined |
| `Model.RoleNameRoundTrip` | src/myinventory/models/host.py:13-23 | role names and roles correspond one to one |
| `Codec.EncodedHostHolds` | src/myinventory/models/host.py:105-124 | `to_dict` files every host field under its own name |
| `Codec.EncodedVmHolds` | src/myinventory/models/vm.py:45-61 | the same for virtual machines |
| `Codec.HostRoundTrip` | src/myinventory/models/host.py:105-146 | `from_dict` of `to_dict` is the host, every field included |
| `Codec.VmRoundTrip` | src/myinventory/models/vm.py:45-80 | the same for virtual machines |
| `Codec.NetRoundTrip` | src/myinventory/models/network.py:37-54 | the same for networks |
| `Codec.ServiceRoundTrip` | src/myinventory/models/service.py:45-70 | the same for services |
| `Codec.DecodeEncoded` | src/myinventory/models/inventory.py:78-100 | decoding what was encoded never fails and re-files every record under its own id |
| `Codec.InventoryRoundTripIff` | src/myinventory/models/inventory.py:78-100 | the round trip is the identity exactly when every record is filed under its own id |
| `Codec.MisfiledIsRefiled` | src/myinventory/models/inventory.py:78-100 | an inventory that does not survive the round trip |
| `Codec.DecodedIsWellFormed` | src/myinventory/models/inventory.py:87-100 | whatever is read back is filed by id with unique keys |
| `WireFormat.StoredNames` | src/myinventory/models/host.py:13-34 | the strings roles and sources are stored as, and likewise power states |
| `WireFormat.ServiceKeysHold` | src/myinventory/models/service.py:45-56 | every attribute of a service stands under its own key |
| `WireFormat.NetKeysHold` | src/myinventory/models/network.py:37-44 | every attribute of a network stands under its own key |
| `WireFormat.InventoryKeysHold` | src/myinventory/models/inventory.py:78-85 | the stored inventory lists the encoded records of its dicts in order, with schema version and time |
| `WireFormat.Defaults` | src/myinventory/models/service.py:58-70 | what missing keys of a service, host, VM, network and inventory are read as |
| `WireFormat.LastHostIsRead` | src/myinventory/models/inventory.py:94-96 | of several stored hosts of one id the last one is read |
| `WireFormat.LastVmIsRead` | src/myinventory/models/inventory.py:97-99 | the same for VMs |
| `WireFormat.Refusals` | src/myinventory/models/host.py:126-146 | a record without its required key, or with a role nobody knows, is refused with that reason |
| `Runs.MergeWellFormed` | src/myinventory/models/inventory.py:68-75 | merging anything into a filed inventory keeps it filed |
| `Runs.UpsertHostWellFormed` | src/myinventory/models/inventory.py:33-42 | upserting any host keeps every record filed under its own id and keys unique |
| `Runs.UpsertVmsWellFormed` | src/myinventory/models/inventory.py:44-46 | so does upserting any VMs |
| `Snapshots.PickId` | src/myinventory/storage/repository.py:99-107 | the suffix loop ends on every finite set of ids, with the first unused candidate |
| `Snapshots.AppendedId` | src/myinventory/storage/repository.py:97-107 | with stamps of one width the first snapshot of a stamp gets the stamp itself, the k-th the stamp, a dash and k |
| `Snapshots.AppendedIdsDistinct` | src/myinventory/storage/repository.py:166-182 | no two appends ever return the same id, whatever the stamps |
| `Snapshots.SortedIsAppendOrderIff` | src/myinventory/storage/repository.py:109-112 | for non-decreasing stamps of one width the listing is in append order exactly when no stamp has more than nine snapshots |
| `Snapshots.SortIds` | src/myinventory/storage/repository.py:184-189 | the listing is the stored ids in strict order |
| `Repository.InventoryRepository.AppendSnapshot` | src/myinventory/storage/repository.py:97-107 | the new id was unused, every other snapshot is untouched |
| `Repository.InventoryRepository.LoadSnapshot` | src/myinventory/storage/repository.py:114-118 | a missing id gives nothing, a present one its decoded payload or the decoding error |
| `Repository.InventoryRepository.ListSnapshots` | src/myinventory/storage/repository.py:48-58 | the ids in order, cut the way the slice cuts them, each with its decoded inventory; the first failure ends it |
| `Repository.SliceLastIff` | src/myinventory/storage/repository.py:51-52 | the slice is the last `limit` ids exactly when the limit is positive (or there is no history) |
| `Repository.ZeroLimitReturnsAll` | src/myinventory/storage/repository.py:51-52 | a limit of zero that returns two snapshots |
| `Repository.InventoryRepository.SaveMerged` | src/myinventory/storage/repository.py:60-75 | snapshot first, then merge over the prior state and persist; a failing load leaves the snapshot and the old state |
| `Runs.RunStoresCumulative` | src/myinventory/storage/repository.py:60-75 | after any run from an empty repository the stored state is the fold of the merge over all scans |
| `Runs.StoredIdsAreTheUnion` | src/myinventory/storage/repository.py:60-75 | it loads, and its host ids are exactly the union over all scans |
| `Runs.SeenIdsGrow` | src/myinventory/storage/repository.py:60-75 | no later scan shrinks that set |
| `Runs.HistoryIsRaw` | src/myinventory/storage/repository.py:66-68 | after any run the i-th snapshot is still the i-th raw scan and there are no others |
| `Runs.SnapshotsAreTheScansInOrder` | src/myinventory/storage/repository.py:48-58 | with orderly stamps, listing and loading the history returns the raw scans in scan order |
| `Runs.KeepHistoryOnlyRecords` | src/myinventory/storage/repository.py:66-75 | `keep_history` decides whether the raw scan is recorded and changes neither result nor cumulative state |
| `Runs.RunKeepingIs` | src/myinventory/storage/repository.py:66-75 | over any run with any choice of it the cumulative state is that of the run that always keeps, and the snapshots are those of the calls that do |
| `Diffs.DiffInventories` | src/myinventory/history/diff.py:156-188 | over any iteration order of the id sets: the three lists of hosts and of VMs hold the right records the right number of times, sorted by their keys |
| `Diffs.DiffHost` | src/myinventory/history/diff.py:191-220 | the change of one host does not depend on the order the key sets are walked in |
| `Diffs.DiffServices` | src/myinventory/history/diff.py:207-219 | labels only the new and only the old side has, and the moved labels, each sorted |
| `ServiceDiffs.AddedAndRemoved` | src/myinventory/history/diff.py:207-214 | added are the labels of the last service of each port the new host lists and the old one does not, once per port and sorted; removed the same with the hosts exchanged |
| `ServiceDiffs.ChangedServices` | src/myinventory/history/diff.py:215-227 | changed are exactly the ports both hosts list whose last services have different labels, old label first, sorted by port |
| `ServiceDiffs.LabelForms` | src/myinventory/models/service.py:34-43 | the label: name, else product, else port; a product other than the name in brackets, with its version |
| `ServiceDiffs.VersionBumpShows` | src/myinventory/history/diff.py:223-227 | two versions of one service have the same label exactly when they are equal or both missing or empty |
| `ServiceDiffs.AddressChange` | src/myinventory/history/diff.py:202-205 | an address change is reported exactly when the multisets of addresses differ, and tells the old addresses first |
| `ServiceDiffs.VmAddressChange` | src/myinventory/history/diff.py:239-242 | the same for a VM |
| `ServiceDiffs.JoinedConcat` | src/myinventory/history/diff.py:204 | joined lists have a separator between elements and nowhere else |
| `DiffLaws.ChangeIsNamed` | src/myinventory/history/diff.py:192-193 | a change carries the new id and the new hostname, else the new first address, else the id |
| `DiffLaws.VmChangeIsNamed` | src/myinventory/history/diff.py:231 | a VM change carries the new id and name |
| `DiffLaws.ListsAreOrdered` | src/myinventory/history/diff.py:181-188 | hosts stand in the order of first address, else hostname, else id; VMs and changes in that of their names |
| `Diffs.DiffVm` | src/myinventory/history/diff.py:230-243 | the compared VM fields in table order, then addresses |
| `Diffs.InServiceDrifts` | src/myinventory/history/diff.py:223-227 | a service change is reported exactly for a common key whose label moved, with both labels |
| `Sorting.SortedEqualIff` | src/myinventory/history/diff.py:202 | comparing sorted addresses is comparing multisets |
| `Sorting.OrderIsUnique` | src/myinventory/history/diff.py:209-219 | a sorted list whose elements differ in their keys is determined by its elements |
| `DiffLaws.HostDiffEmptyIff` | src/myinventory/history/diff.py:43-50 | a host change is empty exactly when role, hostname, MAC, OS and hypervisor agree, addresses agree as multisets and every service key shows the same label |
| `DiffLaws.VmDiffEmptyIff` | src/myinventory/history/diff.py:71-73 | a VM change is empty exactly when the five compared fields and the address multisets agree |
| `DiffLaws.DiffIsExact` | src/myinventory/history/diff.py:163-179 | every id of either side is in exactly one of added, removed, changed, unchanged; each list names it once and carries the right record or change |
| `DiffLaws.DiffEmptyIff` | src/myinventory/history/diff.py:98-107 | the diff is empty exactly when both sides have the same ids and agree under each |
| `DiffLaws.HostDiffReversed` | src/myinventory/history/diff.py:191-220 | diffing a host backwards swaps added with removed services and before with after, order included |
| `DiffLaws.VmDiffReversed` | src/myinventory/history/diff.py:230-243 | the same for a VM |
| `DiffLaws.DiffReversed` | src/myinventory/history/diff.py:156-188 | diffing new against old swaps added with removed, and the changes of the two diffs are each other's reversals, none missing |
| `DiffLaws.PatchGivesNewScalars` | src/myinventory/history/diff.py:195-201 | writing the `after` values into the old host gives the new host's compared scalars and touches nothing else |
| `DiffLaws.VmPatchGivesNewScalars` | src/myinventory/history/diff.py:232-238 | the same for a VM |
| `DiffsOverRuns.MergeRemovesNothing` | src/myinventory/storage/repository.py:60-75 | compared with the state before it, a merge never shows a host or VM as removed |
| `DiffsOverRuns.RescanIsQuietIff` | src/myinventory/models/inventory.py:68-75 | merging the same scan again is reported as no change exactly when no newly taken host lists an address twice |
| `DiffsOverRuns.RescanCanShow` | src/myinventory/models/inventory.py:123 | a scan whose second merge shows as a change |
| `Stale.StaleHosts` | src/myinventory/history/stale.py:28-53 | exactly the filed hosts that no snapshot of the last N lists, each with N missed scans and as often as it is filed, sorted by label; too little history reports nothing |
| `Stale.StaleIffLastSightingOld` | src/myinventory/history/stale.py:40-51 | stale for N means N lies within the history and the last sighting is at least N scans old |
| `Stale.StaleShrinks` | src/myinventory/history/stale.py:40-51 | within the history a larger N never reports more hosts |
| `Stale.NewestIsFresh` | src/myinventory/history/stale.py:40-51 | nothing the newest snapshot saw is stale |
| `Stale.StaleOverRuns` | src/myinventory/history/stale.py:40-51 | after any run of saved scans a stored host is reported for N exactly when the last of the scans that saw it is N or more scans old |
| `FileLocks.AtomicIsSafe` | src/myinventory/lock.py:42-97 | with the three groups atomic: over every interleaving, crash and PID reuse at most one lock object of a live process is held, and the file carries its PID |
| `FileLocks.InvStep` | src/myinventory/lock.py:42-97 | the inductive invariant is kept by every step of every process |
| `FileLocks.LoneAcquireIff` | src/myinventory/lock.py:42-54 | a lone acquire succeeds exactly when the file records no running process, under any atomicity; otherwise nothing changes |
| `FileLocks.StealsAlone` | src/myinventory/lock.py:92-97 | once the holder is judged gone, a lock object left alone acquires whatever the file has become |
| `FileLocks.TornStamp` | src/myinventory/lock.py:76-84 | creating and stamping apart: a reachable state with two holders |
| `FileLocks.TornSteal` | src/myinventory/lock.py:48-54 | reading, judging and unlinking apart: a reachable state with two holders, with no crash |
| `FileLocks.MutualExclusionIffAtomic` | src/myinventory/lock.py:42-97 | mutual exclusion over all runs holds exactly when all three groups are atomic |
| `SerialLocks.SerialIsSafe` | src/myinventory/lock.py:42-97 | with no atomicity at all: while no acquire or release overlaps another call, at most one lock object is held and recorded, whatever crashes and PID reuse do |
| `FileLockObject.FileLock.Acquire` | src/myinventory/lock.py:42-54 | never robs a live holder, is never blocked by anything else, and stamps the file |
| `FileLockObject.FileLock.Release` | src/myinventory/lock.py:56-61 | only an acquired lock unlinks |
| `FileLockObject.AcquireIsLoneAcquire` | src/myinventory/lock.py:42-54 | path, flag and outcome the object's method leaves are those the protocol reaches alone, under any atomicity |
| `RateLimits.SlotsRecurrence` | src/myinventory/ratelimit.py:35-42 | each slot is the later of the caller's time and one interval after the previous slot |
| `RateLimits.SlotsSpread` | src/myinventory/ratelimit.py:35-42 | slots n apart are at least n intervals apart |
| `RateLimits.WindowBound` | src/myinventory/ratelimit.py:14-19 | a window of length W holds at most floor(W * rate) + 1 slots |
| `RateLimits.SlotsAreEarliest` | src/myinventory/ratelimit.py:31-44 | no schedule that respects times and spacing lets any call through earlier |
| `RateLimits.RateLimiter.Acquire` | src/myinventory/ratelimit.py:31-44 | each call reserves the next slot of the schedule and returns no earlier than it; without a rate it never waits |
| `Sweeps.Submit` | src/myinventory/discovery/_sweep.py:42-47 | submission stops at the first address whose turn comes after the deadline, and only then counts as timed out |
| `Sweeps.Collect` | src/myinventory/discovery/_sweep.py:54-62 | results and leftovers are those of the delivered completions |
| `Sweeps.Sweep` | src/myinventory/discovery/_sweep.py:21-66 | with a non-zero timeout exactly the addresses are submitted whose turn, and every turn before, comes earlier than start plus timeout; without one, or with zero, all are submitted and awaited; every address with a finished probe that returned has a result; timed out means something was not submitted or not delivered |
| `Sweeps.DeliveredIsConserved` | src/myinventory/discovery/_sweep.py:49-64 | submitted is delivered plus `not_done`, without overlap or repetition |
| `Sweeps.NoDeadlineNoTimeout` | src/myinventory/discovery/_sweep.py:36-52 | without a deadline everything is submitted and delivered |
| `Sweeps.CollectedIsLastReturned` | src/myinventory/discovery/_sweep.py:54-60 | an address has a result exactly when a delivered submission of it returned, and it is the last such |
| `Sweeps.DeliveredIff` | src/myinventory/discovery/_sweep.py:49-64 | a submission is delivered exactly when there is no deadline or fewer submissions completed before it than are delivered in time |
| `Sweeps.LatestWins` | src/myinventory/discovery/_sweep.py:54-60 | of several delivered submissions of one address the one that completes last decides the result |
| `Sweeps.ResultsAreProbeAnswers` | src/myinventory/discovery/_sweep.py:54-60 | for a deterministic probe partial results are never wrong |
| `Sweeps.NotTimedOutIsComplete` | src/myinventory/discovery/_sweep.py:29-34 | when not timed out, the results are exactly the addresses whose probe returned, each with its answer |
| `Sweeps.LaunchesAreSpaced` | src/myinventory/discovery/_sweep.py:42-47 | with launches at most L after their reserved slots, any window of length W holds at most floor((W + L) * rate) + 1 launches |
| `Correlation.IndexAddresses` | src/myinventory/pipeline/orchestrator.py:237-239 | the index maps an address to the last host listing it |
| `Correlation.LinkVm` | src/myinventory/pipeline/orchestrator.py:241-248 | a VM is linked through its first address that has an owner |
| `Correlation.Correlate` | src/myinventory/pipeline/orchestrator.py:226-248 | the nested loops compute the correlated inventory; the index stays right while hosts change |
| `Correlation.CorrelationLinks` | src/myinventory/pipeline/orchestrator.py:226-248 | every VM with an owned address names that host; every linked host carries the hypervisor of its last VM and is a VM itself if its role was unknown or physical; every other field and record is untouched |
| `Correlation.HasTargetIff` | src/myinventory/pipeline/orchestrator.py:241-248 | a VM is linked exactly when it owns an address of some host |
| `Correlation.TargetIsFirst` | src/myinventory/pipeline/orchestrator.py:237-248 | the target is the last host listing the first of the addresses that any host lists |
| `Correlation.CorrelateIdempotent` | src/myinventory/pipeline/orchestrator.py:226-248 | a second correlation changes nothing |
| `Correlation.CorrelatedResolves` | src/myinventory/pipeline/orchestrator.py:226-248 | correlation leaves no dangling link |
| `Correlation.MergeResolves` | src/myinventory/models/inventory.py:68-75 | merging keeps every link resolvable |
| `Correlation.AnnotatedResolves` | src/myinventory/pipeline/orchestrator.py:82-83 | annotating hosts after correlation keeps records filed and links resolvable |
| `Correlation.StoredLinksResolve` | src/myinventory/storage/repository.py:60-75 | after any run of scans, each collected, correlated and enriched in any way that keeps host ids and VMs, every `host_id` of the stored inventory names a stored host |
| `Classify.HostRecord.Classify` | src/myinventory/enrich/classify.py:158-179 | the pass with its rule loop, and whether role or tags changed; what it leaves is told by the next eight rows |
| `Verdicts.VerdictOfPass` | src/myinventory/enrich/classify.py:158-168 | without rules an unknown or physical role becomes the verdict of the strongest evidence, any other role stays, and the verdict is among the tags |
| `Verdicts.RoleByEvidence` | src/myinventory/enrich/classify.py:93-116 | told by evidence: hypervisor, NAS, printer, network gear, the role of the MAC vendor, or the role as it was |
| `Verdicts.MatchesIff` | src/myinventory/enrich/classify.py:119-140 | a rule matches exactly when it states a criterion and every port, service, OS, vendor and hostname criterion it states is met |
| `Verdicts.LastRuleDecides` | src/myinventory/enrich/classify.py:171-176 | the last matching rule that names a known role decides the role, proven or not |
| `Verdicts.OtherwiseHeuristics` | src/myinventory/enrich/classify.py:171-176 | where no matching rule names a known role, rules leave the role the heuristics found |
| `Verdicts.TagsOfPass` | src/myinventory/enrich/classify.py:78-90 | after a pass the tags are exactly those before, the service, container and vendor tags, the verdict, and those of the matching rules |
| `Verdicts.NotesOfPass` | src/myinventory/enrich/classify.py:159-161 | a missing vendor note is added, every other note stays, and a pass touches role, tags and notes only |
| `Verdicts.ServiceTagsAre` | src/myinventory/enrich/classify.py:36-56 | which service name calls for which tag |
| `ClassifyLaws.TagsOnlyGrow` | src/myinventory/enrich/classify.py:168-177 | no pass with any rules loses a tag |
| `ClassifyLaws.HeuristicsKeepProvenRoles` | src/myinventory/enrich/classify.py:166-167 | without rules a role other than unknown or physical is never changed |
| `ClassifyLaws.OnePassWithoutRules` | src/myinventory/enrich/classify.py:158-179 | without rules one pass is idempotent, for any iteration order of the service names |
| `ClassifyLaws.SecondPass` | src/myinventory/enrich/classify.py:158-179 | with any rules the second pass keeps the role and adds at most one tag |
| `ClassifyLaws.TwoPassesWithRules` | src/myinventory/enrich/classify.py:158-179 | with any rules nothing changes after the second pass |
| `ClassifyLaws.OnePassIsEnoughIff` | src/myinventory/enrich/classify.py:158-179 | one pass is enough exactly when the rules do not change whether the host counts as a hypervisor, or the verdict on the role they leave is among the tags |
| `ClassifyLaws.WitnessOfTwoPasses` | src/myinventory/enrich/classify.py:170-177 | a host and a rule for which one pass is too few |
| `Enrichment.ClassifyAll` | src/myinventory/enrich/classify.py:151-156 | every host gets one pass, and those whose role or tags changed are counted |
| `Enrichment.CountReclassifiedIs` | src/myinventory/enrich/classify.py:151-156 | `applied` is the number of hosts whose role or tags differ afterwards |
| `Enrichment.EnrichersAnnotate` | src/myinventory/pipeline/orchestrator.py:203-223 | the hostname passes and the classifier keep host ids, their order and the VMs, whatever leases, names and rules say |
| `Profiles.DeepMerge` | src/myinventory/config.py:416-430 | the recursive loop computes the overlay and leaves both inputs alone |
| `Profiles.MergedAt` | src/myinventory/config.py:416-430 | at every key path the overlay decides; the base shows only where the overlay neither speaks nor cuts it off |
| `Profiles.OverlayLeafWins` | src/myinventory/config.py:416-430 | a scalar or list of the overlay is found unchanged at its path |
| `Profiles.EmptyIsIdentity` | src/myinventory/config.py:416-430 | the empty mapping is neutral on both sides |
| `Profiles.OverlayTwice` | src/myinventory/config.py:416-430 | the same overlay twice is the overlay once |
| `Profiles.HiddenIff` | src/myinventory/config.py:416-430 | an overlay hides its base completely exactly when every key path of the base exists in it |
| `Profiles.AssociativeIff` | src/myinventory/config.py:416-430 | stacking three layers is independent of the grouping exactly when every scalar or list between two mappings is harmless |
| `Profiles.NeverBetweenIsHarmless` | src/myinventory/config.py:416-430 | having none between is enough |
| `Profiles.BetweenCanBeHarmless` | src/myinventory/config.py:416-430 | but not necessary |
| `Leases.ParseIscLeases` | src/myinventory/enrich/dns.py:50-72 | the line loop returns the leases of the closed blocks, last one per address, or raises when a lease line has no address |
| `Leases.ParseDnsmasqLeases` | src/myinventory/enrich/dns.py:31-47 | the leases of the lines that look like one, in order |
| `Leases.ParseLeases` | src/myinventory/enrich/dns.py:75-79 | the format decides which parser answers |
| `LeaseLaws.OneLeasePerAddress` | src/myinventory/enrich/dns.py:53-55 | one entry per address, from its last block, in first-occurrence order |
| `LeaseLaws.BlockStandsAlone` | src/myinventory/enrich/dns.py:62-71 | no field leaks: whatever came before, a block delivers what its own lines spell |
| `LeaseLaws.LeaseRoundTrip` | src/myinventory/enrich/dns.py:50-72 | printed blocks, with any other lines between and inside, read back as the last lease per address; as the whole list exactly when addresses are distinct |
| `LeaseLaws.MissingAddressIff` | src/myinventory/enrich/dns.py:61-63 | the lines on which the parser raises |
| `LeaseLaws.ParserRaises` | src/myinventory/enrich/dns.py:61-63 | a file on which parsing raises |
| `LeaseLaws.DnsmasqRoundTripIff` | src/myinventory/enrich/dns.py:75-79 | a printed dnsmasq file reads back whole exactly when it is not mistaken for an ISC file; otherwise nothing is read |
| `LeaseLaws.DnsmasqMistaken` | src/myinventory/enrich/dns.py:75-79 | such a file exists |
| `LeaseLaws.DetectionIff` | src/myinventory/enrich/dns.py:75-79 | a file is read as ISC exactly when it contains `lease ` and a brace, so a dnsmasq file without a brace is always read |
| `LeaseLaws.LineMeans` | src/myinventory/enrich/dns.py:61-69 | what a line says between its surrounding whitespace and its trailing semicolons decides what it means: a lease, hardware or name line by how that begins, a closing line by its being one brace |
| `LeaseLaws.LineSays` | src/myinventory/enrich/dns.py:61 | every line splits so, whatever it holds |
| `LeaseLaws.ClosingIff` | src/myinventory/enrich/dns.py:61-69 | a block closes on a brace with whitespace around it and semicolons right behind it, and on nothing else |
| `LeaseLaws.DnsmasqLineIff` | src/myinventory/enrich/dns.py:38-46 | a dnsmasq line makes a lease exactly when it has four words and a colon in the second; a star is no name |
| `LeaseLaws.HardwareTakesLast` | src/myinventory/enrich/dns.py:65-66 | of several words on a hardware line the last one is the address |
| `LeaseLaws.UnquotedNamesNobody` | src/myinventory/enrich/dns.py:67-68 | a client-hostname line without quotation marks names nobody |
| `LeaseLaws.TrailingSpace` | src/myinventory/enrich/dns.py:61 | whitespace at the end of a line goes before its semicolons do |
| `Hostnames.FromDhcp` | src/myinventory/enrich/dns.py:104-133 | names exactly the nameless hosts some lease names, counts them and the unreadable files; a parser failure leaves every host untouched |
| `Hostnames.FromRdns` | src/myinventory/enrich/dns.py:136-156 | names exactly the nameless hosts whose first address resolved, and counts them |
| `Hostnames.FirstNameIs` | src/myinventory/enrich/dns.py:115-120 | over all files the first lease that names a client decides |
| `Hostnames.MacNames` | src/myinventory/enrich/dns.py:126-131 | a nameless host takes the name of the first lease for its MAC, whatever leases its addresses have |
| `Hostnames.AddressNames` | src/myinventory/enrich/dns.py:126-131 | without one, that of the first lease for the first of its addresses that has a lease |
| `Hostnames.NobodyNames` | src/myinventory/enrich/dns.py:126-131 | a host no lease names is unchanged |
| `Hostnames.ReverseNames` | src/myinventory/enrich/dns.py:148-155 | reverse DNS names a nameless host exactly when its first address resolved to a name |
| `Hostnames.CountNamedIs` | src/myinventory/enrich/dns.py:122-133 | `applied` is the number of hosts changed |
| `Hostnames.CountUnreadableIs` | src/myinventory/enrich/dns.py:109-114 | the errors are as many as the unreadable files |
| `Hostnames.NamePrecedence` | src/myinventory/enrich/dns.py:95-101 | a stronger source's name stays, then the lease name, then the reverse-DNS name; the note beside it says which, and nothing else of the host changes |
| `Hostnames.EnrichTwice` | src/myinventory/enrich/dns.py:95-101 | a second run names nobody and changes nothing |

## Left out

- Sharing of host and VM objects: `upsert_host` and `upsert_vm` store the object they are given, so merging stamps the
  incoming inventory's own records in place and leaves both inventories sharing them; here records are values, and
  neither the stamps nor a later change through one owner reach the other.
- Packages, processes and containers are opaque value trees; their own `to_dict` and `from_dict` are not modelled.
- Python's implicit conversions in `from_dict` (a port given as a string, a string where a list is expected): a value of
  the wrong type is a decoding error here.
- JSON text, files and SQL: storage is a map from snapshot id to value tree, the same for both backends.
- Free-form `extra` values are value trees; the `str()` of one, lower-casing, regular expressions and the MAC vendor
  table are arbitrary functions (`Library`); the service-tag table is the real one.
- Floating point: rates, clock readings and disk sizes are reals.
- The order of keys in a configuration mapping, and YAML parsing.
- Set iteration order is arbitrary; diff records of equal sort keys may stand in any order.
- The thread pool behind a sweep: which submissions complete, in what order, and how many are delivered before the
  timeout are arbitrary; worker counts are not modelled.
- The SNMP and fingerprint enrichers: they annotate hosts, which is all `StoredLinksResolve` asks of an enricher.
- `_discover_hosts` and `_collect_virtualization`, which only upsert before `_correlate`.
- `str.splitlines`: a lease file is its list of lines.
- The sweep inside `_from_rdns`: the names it brings back are a parameter.
- `network_for`, `hosts_in`, `vms_of`, `compute_id`, `summary`: one-line queries and formatting.
- Changelog, Markdown, HTML and D2 rendering, the command line, alerting, SNMP, SSH and hypervisor clients, secrets,
  logging: input and output around the core.
- FileLocks.AtomicIsSafe: states safety for the grouped steps only, because without the grouping exclusion is false;
  `MutualExclusionIffAtomic` gives the exact condition.
- Stale.StaleOverRuns: takes stamps of one width that do not decrease and at most nine scans per stamp, the exact
  condition under which the listing is in scan order.
- LeaseLaws.LeaseRoundTrip: the printed values are one-word addresses, lower-case MACs and names without quotation marks,
  which is what dhcpd writes.
