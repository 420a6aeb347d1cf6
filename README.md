# CruxWatch cache and registry model

CruxWatch is a network-element manager: a React/Redux front end that caches networks, their
sites, elements and topology, and a Flask back end that stores network documents in MongoDB,
keeps an in-memory registry of devices, discovers neighbours over SNMP and derives the topology
graph. This project models the bookkeeping at the heart of both halves and proves what it
promises.

- **Redux slices** (`networks`, `network`, `element`). Each thunk is a function from a snapshot
  of the cache (and, where it calls the server, the server's reply as a parameter) to an outcome
  and a new snapshot. Each slice is a `class` whose fields are the slice state, with one method
  per reducer and one `Dispatch…` method per thunk that runs the thunk and its reducers. The
  loops in the source (the pushing `forEach` of `updateNetworksSummary`, the comparison loop of
  `syncNetworkStats`, the dispatch loop of `NeighborDiscover`) are methods with loop invariants,
  proved equal to a recursive specification function.
- **MongoDB network documents** (`Flask/models/network.py`). The collection is a class holding
  the documents as a sequence (`find_one` is the first match, `insert_one` appends); each model
  function is a method over it.
- **The in-memory registry** (`Flask/network_mgmt/global_data`, not part of this model except as
  the state it holds). `devices`, `ne_connections`, `devices_snmp` and `topo_data` are the fields
  of the class `Registry.Registry`, changed by `load_data_from_db`, `update_topo_data` and
  `discover_neighbors`.
- **Huawei discovery** (`hw_disc.py`) and the **Huawei demo app** (`flask_init_huawei/app.py`),
  each with its own module-level device collection as a class.

Values of untyped JavaScript objects and Python dicts are `Common.Value` (`undefined`, `null`,
booleans, integers, strings, lists), and a record is a `map<string, Value>`. `Common.Prop` is
JavaScript property access (absent gives `undefined`), `Common.Get` is Python's `dict.get`
(absent gives `None`), `Common.Truthy` is JavaScript truthiness and `Common.PyTruthy` is Python's. Fresh ids (`uuidv4`,
`ObjectId`) are an oracle `ids: nat -> string`. The server's replies, SNMP walks, IPv4 parsing
and `socket.inet_aton` are parameters.

## Model

| member | source | states |
|---|---|---|
| Common.FilterKeptInOrder | React/src/redux/networks/slice.ts:191 | `filter` keeps exactly the elements that pass, in their order and with their repeats |
| Common.KeptInOrderUnique | React/src/redux/network/slice.ts:207 | an in-order selection of passing elements that keeps as many as pass is the filter itself |
| NetworksSlice.InitialData | React/src/redux/networks/slice.ts:6-18 | the starting summary has no networks and every total 0 |
| NetworksSlice.GetNetworksAsWritten | React/src/redux/networks/slice.ts:21-47 | a non-empty cached list is returned without a fetch, but alone: the payload's totals are absent; an empty cache succeeds exactly when the fetch does |
| NetworksSlice.GetNetworks | React/src/redux/networks/slice.ts:21-47 | corrected cache hit: a non-empty cache is returned whole; otherwise the fetched data, or a rejection with the thrown message |
| NetworksSlice.ApplyPayload | React/src/redux/networks/slice.ts:213-219 | the fulfilled reducers copy the list and every total from the payload except `total_online_networks`, which they do not assign |
| NetworksSlice.CacheHitErasesTotals | React/src/redux/networks/slice.ts:27-33 | as written, storing a cache hit leaves the list but erases the stored totals |
| NetworksSlice.CacheHitKeepsData | React/src/redux/networks/slice.ts:27-33 | corrected, storing a cache hit leaves the stored data exactly as it was, whatever the server would answer |
| NetworksSlice.FirstWithId | React/src/redux/networks/slice.ts:122 | `find` by `network_id`: -1 exactly when no entry has the id, otherwise the first entry with it |
| NetworksSlice.MergeExisting | React/src/redux/networks/slice.ts:117-131 | the merge `map`: each existing entry merged with the first incoming entry of its id; MergeExistingKeepsPlaces states it |
| NetworksSlice.MergeExistingKeepsPlaces | React/src/redux/networks/slice.ts:121-133 | the `map` keeps every entry in place with its id and lock state; a matched entry takes name and both counts from the first incoming entry with its id; an unmatched entry is unchanged |
| NetworksSlice.AppendMissing | React/src/redux/networks/slice.ts:136-142 | the push-if-new fold over the incoming entries; the AppendMissing lemmas below state what it keeps and adds |
| NetworksSlice.AppendNew | React/src/redux/networks/slice.ts:136-142 | the pushing loop computes exactly the push-if-new fold over the incoming entries |
| NetworksSlice.AppendMissingPrefix | React/src/redux/networks/slice.ts:136-142 | pushing never drops or moves an entry already in the list |
| NetworksSlice.AppendMissingCovers | React/src/redux/networks/slice.ts:136-142 | every id of the list and of the incoming entries is present afterwards |
| NetworksSlice.AppendMissingNew | React/src/redux/networks/slice.ts:136-142 | each appended entry has an id new to the list and is the first incoming entry with that id, so a repeated id is appended once |
| NetworksSlice.AppendMissingUnique | React/src/redux/networks/slice.ts:136-142 | pushing keeps the ids of a list with unique ids unique |
| NetworksSlice.AppendMissingOrder | React/src/redux/networks/slice.ts:136-142 | appended entries keep the order of their first occurrence in the incoming list |
| NetworksSlice.UpdateNetworksSummary | React/src/redux/networks/slice.ts:107-181 | the thunk's payload equals the specification (merge, push, name/count rule) and its totals are the sums of `ne_count` and `site_count` and the list length |
| NetworksSlice.UpdateNetworksSummarySpec | React/src/redux/networks/slice.ts:117-177 | the payload specified: the incoming entries merged into the list and the new ones appended, then the name/count rule, then the totals recomputed; its properties are the lemmas below |
| NetworksSlice.UpdateSummaryShape | React/src/redux/networks/slice.ts:117-143 | existing entries come first, in place, with their ids and lock state; unmatched ones are unchanged; after them come exactly the first incoming entries with new ids; every incoming id is present |
| NetworksSlice.UpdateSummaryKeepsUniqueIds | React/src/redux/networks/slice.ts:117-157 | a summary with unique ids keeps them unique through the whole update |
| NetworksSlice.SetNeCount | React/src/redux/networks/slice.ts:146-157 | the name/count rule: with a name and a number, every entry of that name takes the count; the SetNeCount lemmas below state it |
| NetworksSlice.SetNeCountOnlyCounts | React/src/redux/networks/slice.ts:146-157 | with a name and a number, every entry of that name gets exactly that `ne_count` and every other entry is unchanged |
| NetworksSlice.SetNeCountKeepsSites | React/src/redux/networks/slice.ts:146-161 | the name/count rule leaves the site total unchanged |
| NetworksSlice.SetNeCountTotal | React/src/redux/networks/slice.ts:146-160 | when the name is unique, the element total moves by the new count minus the old one |
| NetworksSlice.DeleteNetworkSummary | React/src/redux/networks/slice.ts:184-201 | 404 exactly when no entry has the id; otherwise the result is shorter and is exactly the entries with another id, in their order and with their repeats |
| NetworksSlice.SyncNetworkStats | React/src/redux/networks/slice.ts:61-92 | with the corrected comparison (see Findings), the loop emits exactly the specified entries, in detail order |
| NetworksSlice.SyncEntries | React/src/redux/networks/slice.ts:64-92 | the entries the comparison emits, one per detail network out of sync, in detail order; the Sync lemmas below state them |
| NetworksSlice.SyncEntriesEmpty | React/src/redux/networks/slice.ts:64-101 | nothing is emitted, so nothing is dispatched, exactly when every detail network is in sync |
| NetworksSlice.SyncEntriesMissing | React/src/redux/networks/slice.ts:69-76 | every detail network missing from the summary is emitted with its id |
| NetworksSlice.SyncCoversDetails | React/src/redux/networks/slice.ts:97-101 | after the emitted entries are merged, every detail network has a summary |
| NetworksSlice.SyncEntryAsWritten | React/src/redux/networks/slice.ts:67-89 | as written, a detail network is emitted when it is missing from the summary or its name, site count or raw device count differs from the stored entry |
| NetworksSlice.SyncEntry | React/src/redux/networks/slice.ts:67-89 | corrected, the device count is compared in the form it is stored (`devices.length \|\| sites.length`); SyncSettles is proved about it |
| NetworksSlice.MergedRowFor | React/src/redux/networks/slice.ts:121-142 | after one entry is merged, the first summary with its id carries its name and counts |
| NetworksSlice.SyncReemitsAsWritten | React/src/redux/networks/slice.ts:67-89 | as written, a network with sites and no devices is emitted again right after its own entry was merged |
| NetworksSlice.SyncSettles | React/src/redux/networks/slice.ts:67-89 | corrected, merging the emitted entry brings the network in sync |
| NetworksSlice.NetworksStore.constructor | React/src/redux/networks/slice.ts:6-18 | the store starts loading, without error, with the initial data |
| NetworksSlice.NetworksStore.GetNetworksPending | React/src/redux/networks/slice.ts:210-212 | pending sets `loading` and changes nothing else |
| NetworksSlice.NetworksStore.GetNetworksFulfilled | React/src/redux/networks/slice.ts:213-223 | stores the payload and clears `loading` and `error` |
| NetworksSlice.NetworksStore.Rejected | React/src/redux/networks/slice.ts:224-248 | clears `loading`, records the error message, keeps the data |
| NetworksSlice.NetworksStore.UpdateNetworksSummaryFulfilled | React/src/redux/networks/slice.ts:228-236 | stores the payload and leaves the flags alone |
| NetworksSlice.NetworksStore.DeleteNetworkSummaryFulfilled | React/src/redux/networks/slice.ts:239-244 | replaces only the list; the totals stay |
| NetworksSlice.NetworksStore.DispatchGetNetworks | React/src/redux/networks/slice.ts:21-47 | with the corrected cache hit (see Findings), a cache hit leaves the data unchanged; otherwise the fetched data is stored, or the data kept and the error recorded |
| NetworksSlice.NetworksStore.DispatchUpdateNetworksSummary | React/src/redux/networks/slice.ts:107-181 | the data becomes the stored payload of the specification; the flags are unchanged |
| NetworksSlice.NetworksStore.DispatchDeleteNetworkSummary | React/src/redux/networks/slice.ts:184-201 | success stores the filtered list; a rejection keeps the data and records the error |
| NetworksSlice.NetworksStore.DispatchSyncNetworkStats | React/src/redux/networks/slice.ts:50-103 | with the corrected comparison (see Findings), without emitted entries the data is unchanged; otherwise it is the summary update of the emitted entries |
| NetworkSlice.TrimStart | React/src/redux/network/slice.ts:137 | the leading part `trim` removes is all white space and the rest starts with a non-space |
| NetworkSlice.TrimEnd | React/src/redux/network/slice.ts:137 | the trailing part `trim` removes is all white space and the rest ends with a non-space |
| NetworkSlice.TrimSlice | React/src/redux/network/slice.ts:137 | a trimmed name is a slice of the original, with white space outside it and none at its ends |
| NetworkSlice.TrimIdempotent | React/src/redux/network/slice.ts:146 | trimming a trimmed name changes nothing, so stored and submitted names are compared alike |
| NetworkSlice.TrimEmpty | React/src/redux/network/slice.ts:137-143 | a name trims to "" exactly when it is all white space |
| NetworkSlice.FindDetail | React/src/redux/network/slice.ts:118 | `find` by `network_id`: -1 exactly when no cached network has the id, otherwise the first one with it |
| NetworkSlice.FindSite | React/src/redux/network/slice.ts:435 | `findIndex` by `site_id`: -1 exactly when no site has the id, otherwise the first one with it |
| NetworkSlice.FindElement | React/src/redux/network/slice.ts:443 | `find` by `ne_name`: -1 exactly when no element has the name |
| NetworkSlice.FilterNamedLength | React/src/redux/network/slice.ts:453 | removing the elements with a name shortens the list by their number |
| NetworkSlice.TotalsAppend | React/src/redux/network/slice.ts:585-590 | appending a network adds its element and site counts to the totals |
| NetworkSlice.TotalsUpdate | React/src/redux/network/slice.ts:585-590 | replacing a network moves the totals by the difference of the two networks' counts |
| NetworkSlice.UpsertPlaces | React/src/redux/network/slice.ts:568-582 | the first network with the id is overwritten in place, or the network is appended once; every other entry is unchanged |
| NetworkSlice.UpsertIdempotent | React/src/redux/network/slice.ts:568-582 | storing the same network twice is storing it once |
| NetworkSlice.UpdateNetworkDetails | React/src/redux/network/slice.ts:561-596 | the payload is the upserted list and its totals are the element count (site elements plus root elements) and the site count of that list |
| NetworkSlice.UpsertTotals | React/src/redux/network/slice.ts:585-590 | after an upsert the totals move by the new network's counts, less those of the network it replaced |
| NetworkSlice.GetNetwork | React/src/redux/network/slice.ts:14-59 | a cached network is returned unchanged; otherwise a failed fetch rejects with its message and changes nothing, and a fetched network is tagged with the requested id and appended |
| NetworkSlice.GetNetworkStoresOnce | React/src/redux/network/slice.ts:634-646 | the inner dispatch and the `fulfilled` reducer both store the fetched network, and it ends up in the cache exactly once |
| NetworkSlice.AddNetwork | React/src/redux/network/slice.ts:62-100 | the summary gets the new network with the element count of the submitted sites; the returned network keeps each site's id and name but no elements |
| NetworkSlice.EmptySitesCount | React/src/redux/network/slice.ts:69 | sites without elements count no elements |
| NetworkSlice.TrimmedNames | React/src/redux/network/slice.ts:137 | one trimmed name per submitted site, in order |
| NetworkSlice.TrimmedSiteNames | React/src/redux/network/slice.ts:146 | one trimmed name per existing site, in order |
| NetworkSlice.NewSites | React/src/redux/network/slice.ts:155-170 | one empty site per new request, with the trimmed name and the request's id, or a fresh id when it is empty |
| NetworkSlice.UpdateNetwork | React/src/redux/network/slice.ts:103-197 | `updateNetwork`: the lookup, the two 400 checks, the 304 answer and the appended sites; the lemmas below state each path |
| NetworkSlice.UpdateNetworkNotFound | React/src/redux/network/slice.ts:118-123 | 404 exactly when the network is not cached; every rejection leaves the cache unchanged |
| NetworkSlice.UpdateNetworkEmptyName | React/src/redux/network/slice.ts:137-144 | a submitted site name that is blank once trimmed is rejected with 400 |
| NetworkSlice.UpdateNetworkDuplicateName | React/src/redux/network/slice.ts:146-153 | a submitted site name equal, trimmed, to a trimmed existing site name is rejected with 400 |
| NetworkSlice.UpdateNetworkUnchanged | React/src/redux/network/slice.ts:172-196 | a success answers 304 exactly when the name is unchanged and no submitted site is new, and then returns the cached network and changes nothing |
| NetworkSlice.UpdateNetworkAppends | React/src/redux/network/slice.ts:155-192 | a 200 keeps the existing sites, appends one empty site per submitted site with a new id, renames, recounts, and leaves the cached details to the reducer |
| NetworkSlice.DeleteNetwork | React/src/redux/network/slice.ts:200-232 | 404 exactly when no network has the id; a failed server call gives 500 with its message; a success leaves exactly the networks with another id, in their order and with their repeats |
| NetworkSlice.EditedSite | React/src/redux/network/slice.ts:256-295 | the edited site has the trimmed name and the new location; an existing site keeps its id and elements, a new one has no elements and a fresh id when the given one is empty |
| NetworkSlice.EditedSites | React/src/redux/network/slice.ts:300-317 | every site with the id is replaced by the edited site; when there is none the edited site is appended |
| NetworkSlice.UpdateSite | React/src/redux/network/slice.ts:235-342 | `updateSite`: 404 without the network, otherwise the edited site list stored with recounted totals, or 304 on no change; the lemmas below state each path |
| NetworkSlice.UpdateSiteUnchanged | React/src/redux/network/slice.ts:235-342 | on a cached network the thunk succeeds; it answers 304 with the stored site, changing nothing, exactly when a site with the id has the same name and location |
| NetworkSlice.UpdateSiteStored | React/src/redux/network/slice.ts:300-340 | a 200 stores the network in its place with the edited site list and recounted totals, and answers with the edited site |
| NetworkSlice.UpdateSiteReplaces | React/src/redux/network/slice.ts:256-340 | editing an existing site keeps the list length and the site's elements, and every site with another id stays as it was |
| NetworkSlice.UpdateSiteAppends | React/src/redux/network/slice.ts:284-340 | editing an unknown site id appends one new site without elements and answers 200 |
| NetworkSlice.DeleteSite | React/src/redux/network/slice.ts:345-399 | `deleteSite`: the first network holding the site loses every site with the id and is stored with its new site count; DeleteSiteOutcome states it |
| NetworkSlice.DeleteSiteOutcome | React/src/redux/network/slice.ts:345-399 | 404 exactly when no network holds a site with the id (the second 404 cannot happen); a success leaves exactly the sites with another id, in their order, and records the new site count |
| NetworkSlice.DeleteSiteStoredTwice | React/src/redux/network/slice.ts:789-806 | the `fulfilled` reducer finds the network the inner dispatch stored and stores it again to the same effect |
| NetworkSlice.MovedNetwork | React/src/redux/network/slice.ts:412-492 | the move itself: the device taken from the root or filtered out of its site, then added to the root or appended to the target site, each missing lookup a rejection; MoveRejections and MoveBetweenSites state it |
| NetworkSlice.MoveDeviceToSite | React/src/redux/network/slice.ts:402-515 | `moveDeviceToSite`: the lookups and their rejections, then the move from a site or from the root; the lemmas below state each path |
| NetworkSlice.MoveRejections | React/src/redux/network/slice.ts:412-476 | a move between sites fails exactly when the network, the source site, the device in it or the target site is missing, and then changes nothing |
| NetworkSlice.MoveBetweenSites | React/src/redux/network/slice.ts:441-492 | every element with the name leaves the source site and the device is appended to the target site; other sites, site ids and root elements are unchanged |
| NetworkSlice.MovePreservesTotal | React/src/redux/network/slice.ts:450-487 | the site element total drops by the number of same-named elements in the source site and grows by one, so a unique name keeps it |
| NetworkSlice.MoveFromRootKeepsRoot | React/src/redux/network/slice.ts:423-492 | a root element moved into a site stays in the root as well, so the network holds it twice |
| NetworkSlice.SetLock | React/src/redux/network/slice.ts:533 | every summary entry with the id gets the lock state and every other entry is unchanged |
| NetworkSlice.PushSummaryKeepsIds | React/src/redux/network/slice.ts:537 | merging one entry whose id is present keeps the list's ids and lock states in place |
| NetworkSlice.UpsertFind | React/src/redux/network/slice.ts:538 | an upsert of a cached network overwrites it where it was found |
| NetworkSlice.ToggleNetworkLockAsWritten | React/src/redux/network/slice.ts:517-558 | as written, the flipped entry goes through the summary merge, which keeps the stored lock state |
| NetworkSlice.ToggleNetworkLock | React/src/redux/network/slice.ts:517-558 | corrected, the flipped lock state is also written into every summary entry with the id |
| NetworkSlice.ToggleNeverUnlocks | React/src/redux/network/slice.ts:530-538 | as written, the summary's lock state never changes, so after one toggle, and after two, the detail is locked |
| NetworkSlice.ToggleFlips | React/src/redux/network/slice.ts:530-538 | corrected, one toggle flips the lock state of the summary and of the detail |
| NetworkSlice.ToggleTwiceRestores | React/src/redux/network/slice.ts:530-538 | corrected, two toggles restore both lock states |
| NetworkSlice.ToggleOutcome | React/src/redux/network/slice.ts:525-556 | the toggle throws, changing nothing, unless the network is in both caches; it asks for a save exactly when it locks |
| NetworkSlice.NetworkStore.constructor | React/src/redux/network/slice.ts:7-11 | the store starts loading, without error, with no networks |
| NetworkSlice.NetworkStore.Pending | React/src/redux/network/slice.ts:631-633 | the `pending` reducers set `loading` and nothing else |
| NetworkSlice.NetworkStore.Rejected | React/src/redux/network/slice.ts:669-674 | the `rejected` reducers clear `loading`, record the error message and keep the networks |
| NetworkSlice.NetworkStore.UpdateNetworkRejected | React/src/redux/network/slice.ts:733-741 | `updateNetwork.rejected` records the message of the rejection value |
| NetworkSlice.NetworkStore.GetNetworkFulfilled | React/src/redux/network/slice.ts:634-667 | the payload is upserted and the flags cleared |
| NetworkSlice.NetworkStore.AddNetworkFulfilled | React/src/redux/network/slice.ts:679-692 | the payload is appended with recounted totals, whatever its id |
| NetworkSlice.NetworkStore.UpdateNetworkFulfilled | React/src/redux/network/slice.ts:703-731 | on 200 the cached network with the id is replaced with recounted totals; otherwise the networks are unchanged |
| NetworkSlice.NetworkStore.DeleteNetworkFulfilled | React/src/redux/network/slice.ts:743-747 | the networks become the payload's list |
| NetworkSlice.NetworkStore.FlagsFulfilled | React/src/redux/network/slice.ts:758-777 | `updateSite.fulfilled` and `moveDeviceToSite.fulfilled` change only the flags |
| NetworkSlice.NetworkStore.DeleteSiteFulfilled | React/src/redux/network/slice.ts:789-806 | on 200 the cached network with the id is replaced; otherwise nothing changes but the flags |
| NetworkSlice.NetworkStore.ToggleNetworkLockFulfilled | React/src/redux/network/slice.ts:833-851 | the payload is upserted and the flags are untouched |
| NetworkSlice.NetworkStore.UpdateNetworkDetailsFulfilled | React/src/redux/network/slice.ts:853-861 | the networks become the payload's list |
| NetworkSlice.NetworkStore.DispatchUpdateSite | React/src/redux/network/slice.ts:235-342 | both slices end in the thunk's state and the flags record its outcome |
| NetworkSlice.NetworkStore.DispatchDeleteSite | React/src/redux/network/slice.ts:345-399 | both slices end in the thunk's state (the reducer's second store changes nothing) and the flags record its outcome |
| NetworkSlice.NetworkStore.DispatchMoveDeviceToSite | React/src/redux/network/slice.ts:402-515 | both slices end in the thunk's state and the flags record its outcome |
| NetworkSlice.NetworkStore.DispatchToggleNetworkLock | React/src/redux/network/slice.ts:517-558 | both slices end in the corrected toggle's state after its reducer; the flags are untouched |
| Interface.SiteElementCountAppend | React/src/redux/network/slice.ts:178 | the element count of two site lists joined is the sum of their counts |
| Interface.SiteElementCountUpdate | React/src/redux/network/slice.ts:319 | replacing one site moves the element count by the difference of the two sites' element counts |
| ElementSlice.MapDevice | React/src/redux/element/slice.ts:42-56 | the element record keeps the backend device's `network_name` |
| ElementSlice.MapDeviceKeys | React/src/redux/element/slice.ts:42-56 | the mapped record has exactly the thirteen element keys |
| ElementSlice.MapDeviceRenames | React/src/redux/element/slice.ts:43-47 | `device_name`, `device_type` and `ip` become `ne_name`, `ne_make` and `ne_ip`, and `ne_id` is the fresh id |
| ElementSlice.MapDeviceCopies | React/src/redux/element/slice.ts:44-52 | `ne_type`, `network_name`, the SSH user and password and `gne` are copied as they are (absent ones become `undefined`) |
| ElementSlice.MapDeviceDefaults | React/src/redux/element/slice.ts:51-55 | the optional fields keep a truthy value and otherwise take "", "", `false` and 1 |
| ElementSlice.NamedNetwork | React/src/redux/element/slice.ts:278-280 | `findIndex` by network name: -1 exactly when no cached network has the name, otherwise the first one with it |
| ElementSlice.UpdateNetworkWithDevice | React/src/redux/element/slice.ts:261-355 | nothing changes without a truthy `network_name` or without a cached network of that name; otherwise the list keeps its length and its ids |
| ElementSlice.UpdateWithDeviceDetails | React/src/redux/element/slice.ts:290-334 | the named network is replaced in place by the copy with the merged element and topology, and every other network is unchanged |
| ElementSlice.UpdateWithDeviceSummary | React/src/redux/element/slice.ts:337-348 | the summary row of the network carries its name, its new number of root elements and its old site count |
| ElementSlice.MergeElementFields | React/src/redux/element/slice.ts:298-308 | the spread merge changes only the entry under the key: the given fields win and the old ones stay |
| ElementSlice.DeviceAppliedIdempotent | React/src/redux/element/slice.ts:298-327 | applying the same partial element twice without a topology is applying it once |
| ElementSlice.AddNetworkElement | React/src/redux/element/slice.ts:27-66 | success exactly on a 201 "success" reply, and then the mapped device is dispatched with the reply's topology; every rejection has a non-empty message and changes nothing |
| ElementSlice.AddedDeviceStored | React/src/redux/element/slice.ts:38-59 | an added device of a cached network is stored under its `device_name` with every mapped field |
| ElementSlice.SnmpTarget | React/src/redux/element/slice.ts:84-106 | a failed call or a non-"success" status rejects with the message; otherwise the network is found by name and the element by `device_name`, each missing one rejecting with its own message |
| ElementSlice.SetElementSNMP | React/src/redux/element/slice.ts:69-130 | succeeds exactly when the checks pass, returning the reply; a rejection carries the checks' error and changes nothing |
| ElementSlice.SetElementSNMPRejected | React/src/redux/element/slice.ts:84-106 | a rejected SNMP update leaves the cache alone, whether or not the topology is passed on |
| ElementSlice.SetElementSNMPAsWritten | React/src/redux/element/slice.ts:69-130 | as written, the updated element is dispatched with the network's own topology |
| ElementSlice.SnmpDoublesTopology | React/src/redux/element/slice.ts:118-119 | as written, a successful SNMP update appends the network's own topology to itself, doubling both lists |
| ElementSlice.SnmpKeepsTopology | React/src/redux/element/slice.ts:108-121 | corrected, the network is replaced in place by the copy with the merged element and the same topology |
| ElementSlice.SnmpFieldsSet | React/src/redux/element/slice.ts:108-116 | the dispatched element carries the reply's six SNMP fields and keeps every other field |
| ElementSlice.DiscoverDevices | React/src/redux/element/slice.ts:148-178 | applying the discovered devices keeps the length of the network list |
| ElementSlice.NeighborDiscoverSpec | React/src/redux/element/slice.ts:133-187 | success exactly on a 200 "success" reply; a rejection changes nothing |
| ElementSlice.NeighborDiscover | React/src/redux/element/slice.ts:148-178 | the dispatch loop computes exactly the specification |
| ElementSlice.DiscoverStep | React/src/redux/element/slice.ts:172-177 | one discovered device of a cached network appends the reply topology to that network and changes no other |
| ElementSlice.DiscoverRepeatsTopology | React/src/redux/element/slice.ts:148-178 | every device appends the whole reply topology again: after n devices the lists end with n copies of the reply's lists |
| ElementSlice.DiscoverKeepsOthers | React/src/redux/element/slice.ts:148-178 | discovering devices of one network changes no other cached network |
| ElementSlice.FetchCurrentConfig | React/src/redux/element/slice.ts:190-236 | success exactly on a "success" reply, and then the element's `ne_type` patch is dispatched; a rejection changes nothing |
| ElementSlice.FetchConfigUpdates | React/src/redux/element/slice.ts:206-221 | the named network is replaced in place by a copy whose element of that name has the reply's `ne_type` |
| ElementSlice.TypePatchMerge | React/src/redux/element/slice.ts:214-221 | the patch sets the element's `ne_type`, name and network (creating the element when absent) and keeps its other fields |
| ElementSlice.HandleCliCommand | React/src/redux/element/slice.ts:239-258 | success exactly on a "success" reply, with its output; a rejection has a non-empty message |
| ElementSlice.StoreDiscovered | React/src/redux/element/slice.ts:478-484 | each discovered device is stored with the next fresh id under the string form of its `ne_name`; StoreDiscoveredUndefined states where they land |
| ElementSlice.StoreDiscoveredUndefined | React/src/redux/element/slice.ts:480-484 | discovered records, which have no `ne_name`, all land under the key "undefined", the last one winning |
| ElementSlice.ElementStore.constructor | React/src/redux/element/slice.ts:17-24 | the store starts idle, without error, with no networks and empty outputs |
| ElementSlice.ElementStore.Pending | React/src/redux/element/slice.ts:395-399 | the `pending` reducers set `loading`, and all but `addNetworkElement`'s clear the error |
| ElementSlice.ElementStore.Rejected | React/src/redux/element/slice.ts:389-392 | the `rejected` reducers clear `loading` and record the rejection, or the fallback text |
| ElementSlice.ElementStore.AddNetworkElementFulfilled | React/src/redux/element/slice.ts:368-388 | on "success" the device is stored under its `ne_name` in this slice's network of its name, when it holds one |
| ElementSlice.ElementStore.SetElementSNMPFulfilled | React/src/redux/element/slice.ts:400-456 | on "success" the element is rebuilt from the network's `devices` entry with the five SNMP settings, when both exist |
| ElementSlice.ElementStore.NeighborDiscoverFulfilled | React/src/redux/element/slice.ts:468-502 | on "success" with devices of a cached network and a topology, the devices are stored with fresh ids and the topology appended once; an empty device list with cached networks, or a missing topology for a cached network, throws and changes nothing, `loading` included; otherwise `loading` is cleared and, on failure, the error recorded |
| ElementSlice.ElementStore.FetchConfigPending | React/src/redux/element/slice.ts:509-512 | sets `loading` and the status "loading" |
| ElementSlice.ElementStore.FetchConfigFulfilled | React/src/redux/element/slice.ts:513-517 | stores the output and the status "success" |
| ElementSlice.ElementStore.FetchConfigRejected | React/src/redux/element/slice.ts:518-522 | records the error and the status "failed" |
| ElementSlice.ElementStore.HandleCliCommandFulfilled | React/src/redux/element/slice.ts:529-532 | appends the command and its output to the transcript |
| ElementSlice.ElementStore.DispatchAddNetworkElement | React/src/redux/element/slice.ts:27-66 | both other slices end in the thunk's state and this slice's flags record its outcome |
| ElementSlice.ElementStore.DispatchSetElementSNMP | React/src/redux/element/slice.ts:69-130 | both other slices end in the corrected thunk's state and this slice's flags record its outcome |
| ElementSlice.ElementStore.DispatchNeighborDiscover | React/src/redux/element/slice.ts:133-187 | both other slices end in the state of the loop's specification |
| ElementSlice.ElementStore.DispatchFetchCurrentConfig | React/src/redux/element/slice.ts:190-236 | both other slices end in the thunk's state; the status and the stored output follow the outcome |
| ElementSlice.ElementStore.DispatchHandleCliCommand | React/src/redux/element/slice.ts:239-258 | a success appends to the transcript, a failure records the error; nothing else changes |
| NetworkModel.RenamedKeys | Flask/models/network.py:27-34 | a renamed device has `ne_id` and the target of each mapped key the device has, and no other key |
| NetworkModel.RenamedValues | Flask/models/network.py:27-34 | with distinct targets, every mapped value is copied unchanged and `ne_id` holds the fresh id |
| NetworkModel.DbFormat | Flask/models/network.py:5-34 | the stored form of a device: its keys renamed by the mapping, beside the fresh `ne_id`; the lemmas below state its keys and values |
| NetworkModel.StoredKeysDistinct | Flask/models/network.py:11-24 | the stored key names are pairwise distinct and none is `ne_id` |
| NetworkModel.DbFormatKeys | Flask/models/network.py:5-34 | a stored element has `ne_id` and the new name of each mapped key the device has, and nothing else |
| NetworkModel.DbFormatValues | Flask/models/network.py:5-34 | each mapped value is stored unchanged under its new key, beside the fresh `ne_id` |
| NetworkModel.DbFormatStoredAt | Flask/models/network.py:30-32 | each stored key holds its device key's value and is absent exactly when that key is |
| NetworkModel.DbFormatRenames | Flask/models/network.py:12-15 | `device_name`, `device_type` and `ip` are stored as `ne_name`, `ne_make` and `ne_ip`; `gne` keeps its name |
| NetworkModel.DbFormatSecret | Flask/models/network.py:18 | the enable secret is stored under the empty key and never under `ssh_secret` |
| NetworkModel.Rename | Flask/models/network.py:30-32 | the renaming loop computes exactly the renamed device |
| NetworkModel.ConvertDeviceToDbFormat | Flask/models/network.py:5-34 | the result is the stored form of the device |
| NetworkModel.FirstSiteNamed | Flask/models/network.py:196-199 | -1 exactly when no site has the name, otherwise the first site with it |
| NetworkModel.SitesWithout | Flask/models/network.py:216 | the sites left are exactly those of another name, in their order and with their repeats |
| NetworkModel.WithStatus | Flask/models/network.py:257-258 | an element of the name gets the status and any other element is unchanged |
| NetworkModel.StatusUpdated | Flask/models/network.py:254-258 | sites of other names are unchanged; in each site of the name, each element gets the status when it has the element name |
| NetworkModel.StatusUpdateIdempotent | Flask/models/network.py:244-260 | setting a status twice is setting it once |
| NetworkModel.NetworksCollection.constructor | Flask/models/network.py:39 | the collection starts empty |
| NetworkModel.NetworksCollection.FindByName | Flask/models/network.py:88 | `find_one` by name: -1 exactly when no document has the name, otherwise the first one with it |
| NetworkModel.NetworksCollection.FindById | Flask/network_mgmt/network_load.py:9 | `find_one` by id: -1 exactly when no document has the id, otherwise the first one with it |
| NetworkModel.NetworksCollection.Replace | Flask/models/network.py:106 | the document is replaced, and the write reports a change exactly when it differs |
| NetworkModel.NetworksCollection.NewElements | Flask/models/network.py:55-60 | one element per name, in order, each with the next fresh id |
| NetworkModel.NetworksCollection.NewSites | Flask/models/network.py:46-62 | one site per site name, in order, each with its fresh id followed by the fresh ids of its elements |
| NetworkModel.NetworksCollection.CreateNetwork | Flask/models/network.py:37-80 | one document is appended with the name, the sites and the root elements, every id drawn fresh in the order the source draws them |
| NetworkModel.NetworksCollection.AddSiteToNetwork | Flask/models/network.py:83-109 | a missing network or an existing site name fails with its message and changes nothing; otherwise one empty site is appended and the call succeeds |
| NetworkModel.NetworksCollection.UpdateSiteName | Flask/models/network.py:186-203 | the first site of the old name is renamed; true exactly when the network and the site exist and the name changes |
| NetworkModel.NetworksCollection.DeleteSiteFromNetwork | Flask/models/network.py:206-218 | every site of the name is removed and the rest keep their order and their repeats; true exactly when one was removed |
| NetworkModel.NetworksCollection.NeExistsInNetwork | Flask/models/network.py:221-241 | true exactly when the network exists and an element of one of its sites or of its root has the name |
| NetworkModel.NetworksCollection.ElementsWithStatus | Flask/models/network.py:256-258 | the loop over one site's elements raises exactly when an element has no `ne_name`; otherwise every element gets the status when it has the name |
| NetworkModel.NetworksCollection.SitesWithStatus | Flask/models/network.py:254-258 | the loop over the sites raises exactly when a site of the name holds an element without `ne_name`; otherwise it computes the status update |
| NetworkModel.NetworksCollection.UpdateNeStatus | Flask/models/network.py:244-260 | no network answers `None`; a `KeyError` changes nothing; otherwise the updated document is written and its answer says whether it changed |
| NetworkModel.NetworksCollection.UpdateNetworkName | Flask/models/network.py:175-183 | the first document of the old name is renamed; true exactly when it exists and the name changes |
| NetworkModel.NetworksCollection.DeleteNetwork | Flask/models/network.py:263-267 | the first document of the name is removed; true exactly when there was one |
| Registry.AssignConcat | Flask/network_mgmt/network_load.py:23-43 | assigning two lists of entries is assigning one after the other |
| Registry.Assign | Flask/network_mgmt/network_load.py:26-28 | successive `d[key] = value` assignments, in order; the Assign lemmas state its keys and values |
| Registry.AssignKeys | Flask/network_mgmt/network_load.py:28 | after the assignments a key is present exactly when it was or was assigned |
| Registry.AssignLast | Flask/network_mgmt/network_load.py:28 | the last assignment to a key decides its value |
| Registry.AssignValues | Flask/network_mgmt/network_load.py:28 | every value afterwards was there before or was assigned |
| NetworkLoad.LoadedDevice | Flask/network_mgmt/network_load.py:28-43 | every loaded device is `offline` |
| NetworkLoad.LoadedDeviceKeys | Flask/network_mgmt/network_load.py:28-43 | a loaded device has exactly the fourteen registry keys |
| NetworkLoad.LoadedDeviceSite | Flask/network_mgmt/network_load.py:31-35 | a loaded device names its site and keeps the element's id |
| NetworkLoad.LoadedDeviceIdentity | Flask/network_mgmt/network_load.py:29-33 | the stored `gne`, `ne_ip`, `ne_make` and `ne_name` come back as `gne`, `ip`, `device_type` and `device_name` |
| NetworkLoad.LoadedDeviceSsh | Flask/network_mgmt/network_load.py:41-42 | the SSH user and password are copied |
| NetworkLoad.LoadedDeviceSnmp | Flask/network_mgmt/network_load.py:37-40 | the four SNMP protocol and password settings are copied |
| NetworkLoad.SiteEntries | Flask/network_mgmt/network_load.py:26-43 | one assignment per element of the site, in order, under its name |
| NetworkLoad.LoadEntriesFromSites | Flask/network_mgmt/network_load.py:23-43 | every assignment of the load comes from an element of one of the sites |
| NetworkLoad.LoadEntriesCoverSites | Flask/network_mgmt/network_load.py:23-43 | every element of every site is assigned |
| NetworkLoad.LoadedDevices | Flask/network_mgmt/network_load.py:23-43 | the devices a load builds: every site element's device assigned under its name in order; the lemmas below state its keys and values |
| NetworkLoad.LoadedDevicesKeys | Flask/network_mgmt/network_load.py:23-43 | a name is loaded exactly when some site element has it; root elements are not loaded |
| NetworkLoad.LoadedDevicesFromElements | Flask/network_mgmt/network_load.py:23-43 | every loaded device is the device of some site element of its name, and is `offline` |
| NetworkLoad.LoadedDevicesLastWins | Flask/network_mgmt/network_load.py:23-43 | the device loaded under a name is built from the last element of that name, in site order and then element order |
| NetworkLoad.LoadedDevicesHaveIp | Flask/network_mgmt/network_load.py:30 | every loaded device has an `ip` entry, so a load leaves the registry valid |
| NetworkLoad.RoundTripIdentity | Flask/network_mgmt/network_load.py:29-42 | loading a device stored by `convert_device_to_db_format` gives back its gateway, address, type, name and SSH user and password |
| NetworkLoad.RoundTripSnmp | Flask/network_mgmt/network_load.py:37-40 | the round trip keeps the four SNMP protocol and password settings |
| NetworkLoad.RoundTripLoses | Flask/network_mgmt/network_load.py:28-43 | the SNMP user name and the enable secret do not survive the round trip |
| NetworkLoad.LoadedDevicesStep | Flask/network_mgmt/network_load.py:23-26 | loading one more site assigns its entries over the devices loaded so far |
| NetworkLoad.LoadSite | Flask/network_mgmt/network_load.py:26-43 | the inner loop stores each element of the site under its name and changes nothing else |
| NetworkLoad.LoadDataFromDb | Flask/network_mgmt/network_load.py:4-54 | with a document of the id, the devices become exactly the loaded site devices and the topology data exactly the document's, the name and id are returned, and the registry is valid; otherwise nothing changes |
| TopoInit.Network30 | Flask/network_mgmt/ne_mgmt/topo_init.py:80-81 | the /30 network of an address is the multiple of 4 at or below it, within 4 of it |
| TopoInit.AreIpsInSameSubnetAsWritten | Flask/network_mgmt/ne_mgmt/topo_init.py:74-82 | as written, the test raises exactly when an address does not parse, and otherwise always says yes |
| TopoInit.AreIpsInSameSubnet | Flask/network_mgmt/ne_mgmt/topo_init.py:74-82 | corrected, the test raises exactly when an address does not parse, and otherwise says yes exactly when both lie in one /30 network |
| TopoInit.SameSubnetSymmetric | Flask/network_mgmt/ne_mgmt/topo_init.py:74-82 | the corrected test is symmetric |
| TopoInit.AsWrittenJoinsDistantAddresses | Flask/network_mgmt/ne_mgmt/topo_init.py:80-82 | 10.0.0.1 and 192.168.0.1 lie in different /30 networks, yet the test as written says they share one |
| TopoInit.NetworkDevices | Flask/network_mgmt/ne_mgmt/topo_init.py:31 | exactly the registry devices whose `network_name` is the network's, unchanged |
| TopoInit.NoDevicesNoTopology | Flask/network_mgmt/ne_mgmt/topo_init.py:34-36 | a network without devices has no topology |
| TopoInit.NodesAreNetworkDevices | Flask/network_mgmt/ne_mgmt/topo_init.py:39-40 | the nodes are exactly the network's devices, each labelled with its `device_name` and `ip` |
| TopoInit.EdgesJoinNodes | Flask/network_mgmt/ne_mgmt/topo_init.py:43-60 | every edge joins one or two nodes of the graph |
| TopoInit.ConnectionEdgeIff | Flask/network_mgmt/ne_mgmt/topo_init.py:32-44 | an explicit connection is an edge of the graph exactly when both of its endpoints are devices of the network |
| TopoInit.SelfLoopsAreExplicit | Flask/network_mgmt/ne_mgmt/topo_init.py:43-60 | a self-loop only comes from an explicit connection of a device to itself, since the subnet scan skips a device's own interfaces |
| TopoInit.CorrectedLinksSameNetwork | Flask/network_mgmt/ne_mgmt/topo_init.py:47-60 | corrected, two distinct devices are linked when an address of each lies in one /30 network |
| TopoInit.CorrectedLinkedShareNetwork | Flask/network_mgmt/ne_mgmt/topo_init.py:47-60 | corrected, linked devices are distinct and have addresses in one /30 network |
| TopoInit.AsWrittenLinksAllAddressed | Flask/network_mgmt/ne_mgmt/topo_init.py:47-60 | as written, when the scan does not raise, any two distinct devices with interface addresses are linked |
| TopoInit.ScanOther | Flask/network_mgmt/ne_mgmt/topo_init.py:57-60 | the innermost loop raises exactly when the test raises on one of the interfaces, and otherwise links exactly when one interface matches |
| TopoInit.ScanAddress | Flask/network_mgmt/ne_mgmt/topo_init.py:54-60 | the scan of the other devices for one address raises exactly when a test does, and otherwise finds exactly the matching devices |
| TopoInit.ScanDevice | Flask/network_mgmt/ne_mgmt/topo_init.py:49-60 | the scan of a device's addresses raises exactly when a test does, and otherwise finds exactly the devices it links to |
| TopoInit.ScanAll | Flask/network_mgmt/ne_mgmt/topo_init.py:47-60 | the outer scan raises exactly when a test does, and otherwise finds exactly the subnet links |
| TopoInit.Generated | Flask/network_mgmt/ne_mgmt/topo_init.py:26-72 | the declarative topology for the subnet test given: `None` without devices or when a test raises, otherwise the network's devices as nodes and the explicit and subnet edges; the lemmas above state its parts |
| TopoInit.GenerateTopology | Flask/network_mgmt/ne_mgmt/topo_init.py:26-72 | the generation computes exactly the declarative topology, `None` when the network has no devices or a test raises |
| TopoInit.UpdateTopoData | Flask/network_mgmt/ne_mgmt/topo_init.py:6-23 | with the corrected subnet test (see Findings), a generated topology replaces the `nodes` and `edges` entries and keeps the other entries; a failed generation changes nothing; the other registry fields are unchanged, so the registry stays valid |
| NeInit.FilterParams | Flask/network_mgmt/ne_mgmt/ne_init.py:20-31 | the result holds only allowed keys; an allowed key is present exactly when the device has it bare or prefixed, and the prefixed value wins |
| NeInit.Filtered | Flask/network_mgmt/ne_mgmt/ne_init.py:20-31 | the declarative filter: every allowed key present bare or prefixed, the prefixed value winning; FilterParams is proved against it |
| NeInit.FilterSshParams | Flask/network_mgmt/ne_mgmt/ne_init.py:20-31 | the SSH filter with its eight keys and the prefix `ssh_` |
| NeInit.FilterSnmpParams | Flask/network_mgmt/ne_mgmt/ne_init.py:34-46 | the SNMP filter with its six keys and the prefix `snmp_` |
| NeInit.FilteredIdempotent | Flask/network_mgmt/ne_mgmt/ne_init.py:34-46 | filtering a filtered record changes nothing |
| NeInit.AuthProtocolOf | Flask/network_mgmt/ne_mgmt/ne_init.py:166 | SHA exactly when `auth_protocol` is "SHA", MD5 for anything else |
| NeInit.PrivProtocolOf | Flask/network_mgmt/ne_mgmt/ne_init.py:167-174 | AES-128 exactly for "AES128", DES exactly for "DES56" or "DES", and an error for anything else |
| NeInit.Split | Flask/network_mgmt/ne_mgmt/ne_init.py:226 | `split` gives at least one part and no part contains the separator |
| NeInit.JoinSplit | Flask/network_mgmt/ne_mgmt/ne_init.py:226-228 | joining the parts of a split gives the string back |
| NeInit.SplitJoin | Flask/network_mgmt/ne_mgmt/ne_init.py:226-228 | splitting a join of separator-free parts gives the parts back |
| NeInit.LastFour | Flask/network_mgmt/ne_mgmt/ne_init.py:228 | `parts[-4:]` is the suffix of length four, or the whole list when it is shorter |
| NeInit.CdpIp | Flask/network_mgmt/ne_mgmt/ne_init.py:220 | a CDP neighbour address is its address bytes in decimal, joined with dots |
| NeInit.LldpIp | Flask/network_mgmt/ne_mgmt/ne_init.py:224-228 | an LLDP neighbour address is the last four dot-separated parts of the address OID; LldpIpParts states it |
| NeInit.LldpIpParts | Flask/network_mgmt/ne_mgmt/ne_init.py:224-228 | the parts of an LLDP neighbour address are exactly the last four parts of the address OID |
| NeInit.Accepted | Flask/network_mgmt/ne_mgmt/ne_init.py:208-236 | a walk never keeps more neighbours than it has rows |
| NeInit.AcceptedStep | Flask/network_mgmt/ne_mgmt/ne_init.py:208-236 | one more row keeps its neighbour exactly when it is not an error and its address is valid |
| NeInit.AcceptedFromRows | Flask/network_mgmt/ne_mgmt/ne_init.py:208-236 | every kept neighbour comes from a valid row, in walk order |
| NeInit.AcceptedExtends | Flask/network_mgmt/ne_mgmt/ne_init.py:208-236 | a longer walk never keeps fewer neighbours |
| NeInit.FirstMissing | Flask/network_mgmt/ne_mgmt/ne_init.py:240-253 | none exactly when every key is present; otherwise the first key, in the order the record reads them, that is missing |
| NeInit.NeighborRecord | Flask/network_mgmt/ne_mgmt/ne_init.py:239-253 | the record of a neighbour: its own name, address and session log, the discovering device as gateway, and the inherited settings; the lemmas below state each part |
| NeInit.NeighborRecordIdentity | Flask/network_mgmt/ne_mgmt/ne_init.py:240-253 | a neighbour record has the neighbour's own name and address, the `defaultIcon` type and its own session log |
| NeInit.NeighborRecordInherits | Flask/network_mgmt/ne_mgmt/ne_init.py:241-252 | a neighbour record has the discovering device's address as its gateway and inherits its network and device type |
| NeInit.NeighborRecordCredentials | Flask/network_mgmt/ne_mgmt/ne_init.py:245-249 | a neighbour record inherits the SSH credentials and the connection settings `verbose` and `global_delay_factor` |
| NeInit.InsertNeighbor | Flask/network_mgmt/ne_mgmt/ne_init.py:263-264 | a neighbour is registered under its name unless a device already has its address |
| NeInit.InsertNeighbors | Flask/network_mgmt/ne_mgmt/ne_init.py:256-264 | the accepted neighbours inserted in walk order; the lemmas below state what the insertions keep |
| NeInit.InsertNeighborKeeps | Flask/network_mgmt/ne_mgmt/ne_init.py:263-264 | an insertion keeps every device, keeps addresses present and unique, and leaves the neighbour's address registered |
| NeInit.InsertNeighborsKeep | Flask/network_mgmt/ne_mgmt/ne_init.py:208-264 | discovery keeps addresses present and unique and removes no device |
| NeInit.InsertNeighborsFrame | Flask/network_mgmt/ne_mgmt/ne_init.py:263-264 | afterwards every key was there or is a neighbour's name, and a device no neighbour names keeps its record |
| NeInit.DiscoveredDevices | Flask/network_mgmt/ne_mgmt/ne_init.py:256 | the discovered-devices dict: each accepted neighbour's record under its name, a later one replacing an earlier one |
| NeInit.DiscoveredStep | Flask/network_mgmt/ne_mgmt/ne_init.py:256 | one more neighbour assigns its record over the devices discovered so far |
| NeInit.NewConnections | Flask/network_mgmt/ne_mgmt/ne_init.py:260 | one connection per kept neighbour, from the discovering device to it |
| NeInit.Names | Flask/network_mgmt/ne_mgmt/ne_init.py:259 | the neighbour names in discovery order |
| NeInit.NeighborStep | Flask/network_mgmt/ne_mgmt/ne_init.py:256-264 | how the devices, the discovered records, the connections and the names each grow by one kept neighbour |
| NeInit.AddNeighbor | Flask/network_mgmt/ne_mgmt/ne_init.py:259-264 | the connection is appended and the neighbour inserted under its name unless its address is registered; the registry stays valid |
| NeInit.RecordNeighbors | Flask/network_mgmt/ne_mgmt/ne_init.py:208-266 | the walk returns the discovered records and names of the kept neighbours, inserts them, and appends their connections; a device lacking a copied key raises at the first kept neighbour, before anything changes |
| NeInit.DiscoverNeighbors | Flask/network_mgmt/ne_mgmt/ne_init.py:160-266 | an unsupported privacy protocol or a missing key raises before the walk and changes nothing; otherwise the outcome is the walk's |
| HwDisc.LenientPrivProtocolOf | Flask/network_mgmt/ne_mgmt/hw_disc.py:89 | AES-128 exactly when `priv_protocol` is "AES128", DES for anything else, never an error |
| HwDisc.LenientAgreesWithStrict | Flask/network_mgmt/ne_mgmt/hw_disc.py:89 | wherever the strict choice of ne_init.py succeeds this one picks the same protocol, and where it fails this one picks DES |
| HwDisc.Put | Flask/network_mgmt/ne_mgmt/hw_disc.py:146 | `d[k] = v` on the insertion-ordered dict: the entry replaced in place, or appended when the name is new; PutFacts states it |
| HwDisc.PutFacts | Flask/network_mgmt/ne_mgmt/hw_disc.py:146 | assigning into the ordered dict keeps names distinct and existing names in place, adds the name, changes no entry under another name and appends only the new one |
| HwDisc.NeighborRecordIdentity | Flask/network_mgmt/ne_mgmt/hw_disc.py:130-142 | a neighbour record is a `huawei` device with the neighbour's name, address and own session log, and no icon type |
| HwDisc.NeighborRecordInherits | Flask/network_mgmt/ne_mgmt/hw_disc.py:134-141 | a neighbour record has the discovering device as its gateway and copies its network, its SSH user, password and secret, and its `verbose` and `global_delay_factor` |
| HwDisc.NeighborRecord | Flask/network_mgmt/ne_mgmt/hw_disc.py:130-142 | the record of a neighbour: a `huawei` device with its own name and address, inheriting the discovering device's network and SSH credentials |
| HwDisc.InsertKeeps | Flask/network_mgmt/ne_mgmt/hw_disc.py:145-146 | inserting a neighbour whose address is unregistered keeps names distinct, every device addressed and addresses distinct |
| HwDisc.Walked | Flask/network_mgmt/ne_mgmt/hw_disc.py:105-147 | the dict and returned names after the accepted neighbours are visited in order, each one inserted and returned only when its address is unregistered |
| HwDisc.WalkedKeeps | Flask/network_mgmt/ne_mgmt/hw_disc.py:105-147 | discovery keeps names distinct, every device addressed and addresses distinct |
| HwDisc.WalkedKeys | Flask/network_mgmt/ne_mgmt/hw_disc.py:105-147 | the names afterwards are the old ones plus the returned ones, there is at most one returned name per kept neighbour, and existing names keep their positions |
| HwDisc.ReturnedNamesRegistered | Flask/network_mgmt/ne_mgmt/hw_disc.py:145-151 | every returned name is a device of the dict afterwards |
| HwDisc.DiscoveryGuard | Flask/network_mgmt/ne_mgmt/hw_disc.py:87-98 | the walk starts exactly when the device has a name and the SNMP parameters have a user, both passwords and an address |
| HwDisc.HwDevices.constructor | Flask/network_mgmt/ne_mgmt/hw_disc.py:11 | the dict starts empty |
| HwDisc.HwDevices.AddNeighbor | Flask/network_mgmt/ne_mgmt/hw_disc.py:145-147 | the neighbour is assigned under its name exactly when no registered device has its address; otherwise nothing changes |
| HwDisc.HwDevices.DiscoverNeighbors | Flask/network_mgmt/ne_mgmt/hw_disc.py:86-151 | a missing name or SNMP parameter raises before the walk and changes nothing; otherwise the outcome is the walk's |
| HwDisc.HwDevices.WalkRows | Flask/network_mgmt/ne_mgmt/hw_disc.py:105-151 | error rows and invalid addresses are skipped; a device lacking a key its record copies raises at the first kept neighbour, with nothing changed; otherwise the dict and the names are those of the walk specification |
| HwDisc.ScanIp | Flask/network_mgmt/ne_mgmt/hw_disc.py:170-173 | stops at the first device with the address, or at the first device without an address, and otherwise scans every device |
| HwDisc.PyStr | Flask/network_mgmt/ne_mgmt/hw_disc.py:177 | `str(v)` as the failure message's f-string renders the `gne` address: `None`, `True`/`False`, the decimal integer, the string itself, or a bracketed list |
| HwDisc.GneOf | Flask/network_mgmt/ne_mgmt/hw_disc.py:162-180 | a target without a name fails; a found gateway is the first registered device with the target's `gne` address and has a non-empty name; otherwise the failure message names the address, and every device with that address is nameless or comes after an earlier one |
| HwDisc.FindGne | Flask/network_mgmt/ne_mgmt/hw_disc.py:165-180 | the lookup loop returns exactly the gateway specification |
| HuaweiApp.StripSnmp | Flask/flask_init_huawei/app.py:63 | `replace('snmp_', '')` never lengthens the key |
| HuaweiApp.SnmpParams | Flask/flask_init_huawei/app.py:61-63 | the comprehension: each `snmp_` item naming an allowed parameter, under its stripped name, a later one winning |
| HuaweiApp.SnmpParamsKeys | Flask/flask_init_huawei/app.py:61-63 | a name is in the result exactly when some `snmp_` item strips to it, and every name is an allowed SNMP parameter |
| HuaweiApp.SnmpParamsLastWins | Flask/flask_init_huawei/app.py:63 | the last selected item under a name decides its value |
| HuaweiApp.BareItemIgnored | Flask/flask_init_huawei/app.py:63 | an item without the `snmp_` prefix changes nothing |
| HuaweiApp.ComprehensionDiffersFromLoop | Flask/flask_init_huawei/app.py:61-63 | a bare `ip` is dropped by this filter while the loop filter of ne_init.py keeps it |
| HuaweiApp.NeighborRecordIdentity | Flask/flask_init_huawei/app.py:146-156 | a neighbour has its own name and SSH address and no SNMP address |
| HuaweiApp.NeighborRecordCredentials | Flask/flask_init_huawei/app.py:150-152 | a neighbour carries HR1's SSH user, password and secret under the unprefixed keys |
| HuaweiApp.NeighborRecord | Flask/flask_init_huawei/app.py:146-156 | the record of a neighbour found through HR1, with HR1's SSH credentials under the unprefixed keys |
| HuaweiApp.AppendedStep | Flask/flask_init_huawei/app.py:158-160 | one more neighbour is appended exactly when no device, old or just appended, has its SSH address |
| HuaweiApp.AppendKeeps | Flask/flask_init_huawei/app.py:158-160 | appending a neighbour with a fresh SSH address keeps every device named and addressed and the SSH addresses distinct |
| HuaweiApp.Appended | Flask/flask_init_huawei/app.py:123-162 | the neighbours appended, in order: each accepted one whose SSH address no device, old or just appended, has |
| HuaweiApp.AppendedKeeps | Flask/flask_init_huawei/app.py:123-162 | discovery keeps the list well formed, appends at most one device per kept neighbour, and appends only neighbour records |
| HuaweiApp.HuaweiDevices.constructor | Flask/flask_init_huawei/app.py:36 | the list holds HR1 alone and is well formed |
| HuaweiApp.HuaweiDevices.AppendNeighbor | Flask/flask_init_huawei/app.py:158-160 | the neighbour is appended exactly when no device has its SSH address; otherwise nothing changes |
| HuaweiApp.HuaweiDevices.DiscoverNeighbors | Flask/flask_init_huawei/app.py:104-162 | the neighbours returned are exactly those appended to the device list, as the walk specification gives them |
| HuaweiApp.HuaweiDevices.Discover | Flask/flask_init_huawei/app.py:229-232 | status 200, and the names in the reply are the names of the appended neighbours, in order |
| HuaweiApp.FirstNamed | Flask/flask_init_huawei/app.py:236 | the first device with the name, or -1 when no device has it |
| HuaweiApp.GetInfo | Flask/flask_init_huawei/app.py:234-248 | with a name on every device up to the first of the name asked for: 404 exactly when no device has the name or the first one has no SNMP address; "not found" exactly when no device has the name; data only from the SNMP query of a device with the name |
| HuaweiApp.Hr1InfoQueried | Flask/flask_init_huawei/app.py:17-36 | at start-up, asking for HR1 returns the outcome of its SNMP query |
| HuaweiApp.NeighborInfoNotConfigured | Flask/flask_init_huawei/app.py:146-248 | a discovered neighbour not shadowed by an earlier device of the same name answers that SNMP is not configured |

## Left out

- Network I/O: every axios call, MongoDB access, SNMP walk and query, and SSH session is an input to the model: a server reply, a document collection, a sequence of walk rows, or a fetch function. URLs, request bodies and headers are not modelled.
- Redux Toolkit machinery: the dispatch order inside `createAsyncThunk`, Immer drafts, redux-persist and middleware are not modelled. A thunk reads one snapshot of the cache and yields its outcome and the new snapshot, and its reducers run as methods afterwards.
- `console.log`, `logging` and `print` calls have no effect on state and are left out.
- `saveNetworkData`, the fetch path of `getNetwork` and the HTTP part of `deleteNetwork` are server calls. Their replies are parameters.
- NetworkSlice.DeleteSite: the summary it dispatches reads `updatedNetwork.neCount`, a property that does not exist, so the source sends `ne_count: undefined`. The model sends the recomputed `ne_count`, and its contract covers only the network detail, not that summary field.
- NetworkSlice.NetworkStore.FlagsFulfilled: the fulfilled reducers of `updateSite` and `moveDeviceToSite` only clear the loading flags in the model. The `updateSite` reducer looks up `network_id` on a site, which never matches, so its write is dead code.
- NetworksSlice.NetworksStore.DispatchGetNetworks: runs the corrected cache hit (NetworksSlice.GetNetworks), not the source's, which erases the stored totals; NetworksSlice.GetNetworksAsWritten and the Findings table cover the source's behaviour.
- NetworksSlice.SyncNetworkStats: computes the corrected entries (NetworksSlice.SyncEntry). The source also re-emits a network whose stored `ne_count` is its site count because it has no devices, for example `ne_count` 2 and `site_count` 2 against a detail with two sites and no devices; NetworksSlice.SyncEntryAsWritten models that.
- NetworksSlice.NetworksStore.DispatchSyncNetworkStats: dispatches the corrected entries of NetworksSlice.SyncNetworkStats, so it does not show the repeated emission of the source.
- NetworkSlice.NetworkStore.DispatchToggleNetworkLock: runs the corrected toggle (NetworkSlice.ToggleNetworkLock), which also writes the lock state into the summary. The source's toggle never changes the summary's lock state; NetworkSlice.ToggleNetworkLockAsWritten models it and NetworkSlice.ToggleNeverUnlocks states the result.
- ElementSlice.ElementStore.DispatchSetElementSNMP: runs the corrected thunk (ElementSlice.SetElementSNMP), which keeps the network's topology. The source appends the topology to itself; ElementSlice.SetElementSNMPAsWritten models it and ElementSlice.SnmpDoublesTopology states the result.
- NetworkSlice.AddNetwork: the stored detail gets empty `elements`, `devices` and topology, where the source's `networkData` has none of them. So `moveDeviceToSite` from the root and `setElementSNMP` on a newly added network reject with "not found" in the model, where the source raises `TypeError` (network/slice.ts:425, element/slice.ts:102).
- NetworkSlice.MovePreservesTotal: the source filter removes every element with the moved name from the source site. So the number of site elements is preserved only when the name is unique in that site. The lemma states the general count and the unique case.
- Interface.NetworkSummary: an absent `isLocked` is the boolean `false`, which has the same JavaScript truthiness as `undefined`.
- The duplicate-name check of the route handler in `Flask/network_mgmt/routes.py` is outside this model. `create_network` is modelled as it is written, without that check.
- NetworkModel.NetworksCollection.CreateNetwork: the `_id` that MongoDB assigns is not modelled.
- `add_ne_to_site`, `add_ne_to_network_root`, `get_all_networks` and `get_network_by_name` are left out. They are MongoDB reads, or appends of a converted device, beside the document edits that are modelled.
- NetworkLoad.LoadDataFromDb: the stored document types always carry `network_name`, `site_id` and `site_name`, so the `'Unknown'` fallbacks cannot occur in the model. A missing `sites` or `elements` list is the empty list.
- Python dictionary semantics: keys are compared as `Common.Value`s. So `1 == True`, and the hashing of floats and unhashable keys, are not modelled. A device key that is a list would raise `TypeError` in Python.
- TopoInit.UpdateTopoData: generates the topology with the corrected subnet test (TopoInit.AreIpsInSameSubnet). The source's test links any two addressed devices, for example interfaces 10.0.0.1 and 192.168.0.1; TopoInit.GenerateTopology takes the test as a parameter, and TopoInit.AsWrittenLinksAllAddressed states the source's result.
- TopoInit.ScanAddress: the registry's devices are visited in an arbitrary order rather than in Python's insertion order. The graph is a set of nodes and a set of unordered edges, so the order cannot change the result.
- `ne_mgmt/routes.py:122` unpacks two values from the three that `discover_neighbors` returns. That route handler is not part of this model.
- `get_snmpv3_data` is left out, along with its five-minute TTL cache keyed on the address. It is SNMP I/O, and the model takes its result as the `fetch` parameter of HuaweiApp.GetInfo.
- `socket.inet_aton` and `ipaddress` parsing are the parameters `isValidIp` and `parse`. So which strings count as IPv4 addresses (for example `inet_aton`'s acceptance of `"1"`) is left to the caller.
- NeInit.NeighborRecord: Python's f-string rendering of a non-string name is not modelled. Names are the strings SNMP returns.
- NeInit.DiscoverNeighbors: requires every registered device to have an `ip` (Registry.Valid), and every writer of the registry in this model keeps that. A registry device without `ip` would make the source raise `KeyError` at ne_init.py:263, and that case is not modelled.
- NeInit.InsertNeighborsFrame: a neighbour whose name is already a device key overwrites that device, possibly one found earlier in the same walk. So it is not true that every discovered address is registered afterwards, and the lemma states only what does hold.
- HwDisc.HwDevices.DiscoverNeighbors: requires every registered device to have an `ip` (the class invariant). Without it, the scan at hw_disc.py:145 would raise `KeyError`.
- The SSH dialogue of `query_device_via_gateway` (hw_disc.py and app.py) is not modelled: the connection, the `stelnet` prompts and the command output. Only the gateway lookup that precedes it is modelled (HwDisc.GneOf).
- HwDisc.PyStr: renders the strings inside a list without Python's escaping of quotes and backslashes.
- The `filter_ssh_params` of hw_disc.py and app.py, and the `filter_snmp_params` of hw_disc.py, are the same code as in ne_init.py, and NeInit.FilterSshParams and NeInit.FilterSnmpParams model them. The authentication choice in hw_disc.py and app.py is NeInit.AuthProtocolOf. The privacy choice in app.py is HwDisc.LenientPrivProtocolOf.
- HuaweiApp.HuaweiDevices.Discover: discovery always starts from HR1, which has every key the discovery reads, so the `KeyError` paths of `discover_neighbors` cannot occur there.
- HuaweiApp.GetInfo: requires a `name` on every device the `next(...)` scan reaches, and discovery keeps every device named. A device without `name` before the match would make the scan raise `KeyError`.
- The device pages (`/devices`, `get_config`) render templates or go through the SSH dialogue, and are left out.

## Findings

| source | as written | input that shows it | evidently intended | confidence | as-written member | corrected member |
|---|---|---|---|---|---|---|
| React/src/redux/networks/slice.ts:27-33 | on a cache hit `getNetworks` returns `{ networks }` alone, so the fulfilled reducer sets every stored total to `undefined` | a cached summary with one network and `total_nes` 3: afterwards `total_nes` is undefined | the cache hit returns the whole cached data and the stored totals survive | not executed | NetworksSlice.GetNetworksAsWritten, NetworksSlice.CacheHitErasesTotals | NetworksSlice.GetNetworks, NetworksSlice.CacheHitKeepsData |
| React/src/redux/network/slice.ts:530-538 | `toggleNetworkLock` dispatches the flipped `isLocked` through `updateNetworksSummary`, whose merge keeps the existing `isLocked`, so the summary never changes | an unlocked network toggled twice: the detail is locked after both toggles | the summary records the flipped lock, so a second toggle unlocks | not executed | NetworkSlice.ToggleNetworkLockAsWritten, NetworkSlice.ToggleNeverUnlocks | NetworkSlice.ToggleNetworkLock, NetworkSlice.ToggleFlips, NetworkSlice.ToggleTwiceRestores |
| React/src/redux/networks/slice.ts:67-89 | `syncNetworkStats` stores `devices.length \|\| sites.length` as `ne_count`, but compares the stored `ne_count` with the raw device count | a network with two sites and no devices is emitted again on every sync | the comparison uses the same count that is stored, so one sync settles | not executed | NetworksSlice.SyncEntryAsWritten, NetworksSlice.SyncReemitsAsWritten | NetworksSlice.SyncEntry, NetworksSlice.SyncSettles |
| React/src/redux/element/slice.ts:118-119 | `setElementSNMP` passes the network's own topology to `updateNetworkWithDevice`, which appends it to itself | a network with one node and one edge: after an SNMP update it has two of each | the SNMP update leaves the topology unchanged | not executed | ElementSlice.SetElementSNMPAsWritten, ElementSlice.SnmpDoublesTopology | ElementSlice.SetElementSNMP, ElementSlice.SnmpKeepsTopology |
| Flask/network_mgmt/ne_mgmt/topo_init.py:80-82 | `are_ips_in_same_subnet` tests each address against its own /30 network, so it holds for any two addresses | 10.0.0.1 and 192.168.0.1 are reported as sharing a subnet | the second address lies in the first address's /30 network | not executed | TopoInit.AreIpsInSameSubnetAsWritten, TopoInit.AsWrittenJoinsDistantAddresses, TopoInit.AsWrittenLinksAllAddressed | TopoInit.AreIpsInSameSubnet, TopoInit.CorrectedLinksSameNetwork, TopoInit.CorrectedLinkedShareNetwork |
