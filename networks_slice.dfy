/** The networks summary slice: the list of per-network summaries with its totals,
    the thunks that reconcile it (`getNetworks`, `syncNetworkStats`,
    `updateNetworksSummary`, `deleteNetworkSummary`) and the reducers that store
    their payloads. */
module NetworksSlice {
  import opened Common
  import opened Interface

  /** The slice's starting data: no networks and every total 0. */
  function InitialData(): (d: SummaryData)
    ensures |d.networks| == 0
    ensures d.total_nes == Some(0) && d.total_sites == Some(0) && d.total_networks == Some(0)
  {
    SummaryData([], Some(0), Some(0), Some(0), Some(0), Some(0), Some(0))
  }

  predicate HasId(s: seq<NetworkSummary>, id: string) {
    exists k :: 0 <= k < |s| && s[k].network_id == id
  }

  /** No two summaries share a `network_id`. */
  predicate UniqueIds(s: seq<NetworkSummary>) {
    forall i, j :: 0 <= i < j < |s| ==> s[i].network_id != s[j].network_id
  }

  /** `list.find(n => n.network_id === id)`, as an index (-1 when absent). */
  function FirstWithId(s: seq<NetworkSummary>, id: string): (i: int)
    ensures -1 <= i < |s|
    ensures i == -1 <==> !HasId(s, id)
    ensures 0 <= i ==> s[i].network_id == id && forall k :: 0 <= k < i ==> s[k].network_id != id
  {
    FindIndex(s, (n: NetworkSummary) => n.network_id == id)
  }

  lemma FirstWithIdSkip(s: seq<NetworkSummary>, id: string)
    requires |s| > 0 && s[0].network_id != id
    ensures FirstWithId(s, id) == (if FirstWithId(s[1..], id) == -1 then -1 else FirstWithId(s[1..], id) + 1)
  {
    var j := FirstWithId(s[1..], id);
    if j == -1 {
      assert forall k :: 1 <= k < |s| ==> s[k] == s[1..][k - 1];
    } else {
      assert s[j + 1] == s[1..][j];
      assert forall k :: 1 <= k < j + 1 ==> s[k] == s[1..][k - 1];
    }
  }

  // ---------------------------------------------------------------- getNetworks

  /** `getNetworks` as written: a non-empty cached list is returned on its own, in a
      payload that carries no totals; otherwise the server's reply is the payload. */
  function GetNetworksAsWritten(cached: SummaryData, fetch: Reply<SummaryData>): (r: Outcome<SummaryData>)
    ensures |cached.networks| > 0 ==> r.Fulfilled? && r.value.networks == cached.networks
    ensures |cached.networks| > 0 ==> r.value.total_nes.None? && r.value.total_sites.None?
    ensures |cached.networks| == 0 ==> (r.Fulfilled? <==> fetch.Ok?)
  {
    if |cached.networks| > 0 then
      Fulfilled(SummaryData(cached.networks, None, None, None, None, None, None))
    else
      match fetch
      case Ok(d) => Fulfilled(d)
      case Failure(m) => Rejected(Thrown(m))
  }

  /** `getNetworks` with the cache hit returning the cached data whole, so that
      storing the payload leaves the slice as it was. */
  function GetNetworks(cached: SummaryData, fetch: Reply<SummaryData>): (r: Outcome<SummaryData>)
    ensures |cached.networks| > 0 ==> r == Fulfilled(cached)
    ensures |cached.networks| == 0 ==> (fetch.Ok? ==> r == Fulfilled(fetch.body))
    ensures |cached.networks| == 0 ==> (fetch.Failure? ==> r == Rejected(Thrown(fetch.message)))
  {
    if |cached.networks| > 0 then Fulfilled(cached)
    else
      match fetch
      case Ok(d) => Fulfilled(d)
      case Failure(m) => Rejected(Thrown(m))
  }

  /** What the `fulfilled` reducers of `getNetworks` and `updateNetworksSummary` store:
      the list and five totals; `total_online_networks` is not copied. */
  function ApplyPayload(data: SummaryData, p: SummaryData): (d: SummaryData)
    ensures d.networks == p.networks && d.total_nes == p.total_nes && d.total_sites == p.total_sites
    ensures d.total_networks == p.total_networks
    ensures d.total_online_nes == p.total_online_nes && d.total_online_sites == p.total_online_sites
    ensures d.total_online_networks == data.total_online_networks
  {
    data.(networks := p.networks, total_nes := p.total_nes, total_networks := p.total_networks,
          total_online_nes := p.total_online_nes, total_online_sites := p.total_online_sites,
          total_sites := p.total_sites)
  }

  /** As written, a cache hit erases every stored total but `total_online_networks`. */
  lemma CacheHitErasesTotals(data: SummaryData, fetch: Reply<SummaryData>)
    requires |data.networks| > 0
    ensures GetNetworksAsWritten(data, fetch).Fulfilled?
    ensures var d := ApplyPayload(data, GetNetworksAsWritten(data, fetch).value);
      d.networks == data.networks && d.total_nes == None && d.total_sites == None &&
      d.total_networks == None && d.total_online_nes == None && d.total_online_sites == None
  {
  }

  /** With the correction, a cache hit leaves the stored data unchanged and does not depend on the server. */
  lemma CacheHitKeepsData(data: SummaryData, fetch: Reply<SummaryData>)
    requires |data.networks| > 0
    ensures GetNetworks(data, fetch).Fulfilled?
    ensures ApplyPayload(data, GetNetworks(data, fetch).value) == data
  {
  }

  // ------------------------------------------------------ updateNetworksSummary

  /** One existing summary after the merge: the first incoming entry with its id
      supplies its name and counts; every other field is its own. */
  function MergeEntry(n: NetworkSummary, incoming: seq<NetworkSummary>): NetworkSummary {
    var j := FirstWithId(incoming, n.network_id);
    if j == -1 then n
    else n.(network_name := incoming[j].network_name, ne_count := incoming[j].ne_count,
            site_count := incoming[j].site_count)
  }

  /** `existingNetworks.map(...)`: every existing summary merged with its match. */
  function MergeExisting(existing: seq<NetworkSummary>, incoming: seq<NetworkSummary>): seq<NetworkSummary> {
    seq(|existing|, k requires 0 <= k < |existing| => MergeEntry(existing[k], incoming))
  }

  /** The merge keeps every entry in place with its id and lock state; a matched entry takes
      name and counts from the first incoming entry with its id and an unmatched one is unchanged. */
  lemma MergeExistingKeepsPlaces(existing: seq<NetworkSummary>, incoming: seq<NetworkSummary>)
    ensures var r := MergeExisting(existing, incoming);
      |r| == |existing| &&
      (forall k :: 0 <= k < |r| ==> r[k].network_id == existing[k].network_id && r[k].isLocked == existing[k].isLocked) &&
      (forall k :: 0 <= k < |r| && !HasId(incoming, existing[k].network_id) ==> r[k] == existing[k]) &&
      (forall k :: 0 <= k < |r| && HasId(incoming, existing[k].network_id) ==>
        var m := incoming[FirstWithId(incoming, existing[k].network_id)];
        r[k].network_name == m.network_name && r[k].ne_count == m.ne_count && r[k].site_count == m.site_count)
  {
  }

  /** One step of the pushing `forEach`: push `x` unless its id is already in the list. */
  function PushIfNew(acc: seq<NetworkSummary>, x: NetworkSummary): seq<NetworkSummary> {
    if HasId(acc, x.network_id) then acc else acc + [x]
  }

  lemma PushIfNewHas(acc: seq<NetworkSummary>, x: NetworkSummary)
    ensures HasId(PushIfNew(acc, x), x.network_id)
  {
    if !HasId(acc, x.network_id) {
      assert PushIfNew(acc, x)[|acc|] == x;
    }
  }

  /** The `forEach` that pushes each incoming entry whose id is not yet in the list. */
  function AppendMissing(acc: seq<NetworkSummary>, items: seq<NetworkSummary>): seq<NetworkSummary>
    decreases |items|
  {
    if |items| == 0 then acc else AppendMissing(PushIfNew(acc, items[0]), items[1..])
  }

  /** The pushing loop: `updated` is the merged list followed by the new entries. */
  method AppendNew(merged: seq<NetworkSummary>, incoming: seq<NetworkSummary>) returns (updated: seq<NetworkSummary>)
    ensures updated == AppendMissing(merged, incoming)
  {
    updated := merged;
    var i := 0;
    while i < |incoming|
      invariant 0 <= i <= |incoming|
      invariant AppendMissing(updated, incoming[i..]) == AppendMissing(merged, incoming)
    {
      assert incoming[i..][0] == incoming[i] && incoming[i..][1..] == incoming[i + 1..];
      if FirstWithId(updated, incoming[i].network_id) == -1 {
        updated := updated + [incoming[i]];
      }
      i := i + 1;
    }
    assert incoming[i..] == [];
  }

  /** Appending never drops or moves the entries already in the list. */
  lemma {:induction false} AppendMissingPrefix(acc: seq<NetworkSummary>, items: seq<NetworkSummary>)
    ensures |AppendMissing(acc, items)| >= |acc|
    ensures AppendMissing(acc, items)[..|acc|] == acc
    decreases |items|
  {
    if |items| > 0 {
      var acc' := PushIfNew(acc, items[0]);
      AppendMissingPrefix(acc', items[1..]);
      assert AppendMissing(acc, items)[..|acc|] == AppendMissing(acc', items[1..])[..|acc'|][..|acc|];
    }
  }

  /** Every id of the list and of the incoming entries ends up in the result. */
  lemma {:induction false} AppendMissingCovers(acc: seq<NetworkSummary>, items: seq<NetworkSummary>)
    ensures forall k :: 0 <= k < |items| ==> HasId(AppendMissing(acc, items), items[k].network_id)
    ensures forall k :: 0 <= k < |acc| ==> HasId(AppendMissing(acc, items), acc[k].network_id)
    decreases |items|
  {
    var r := AppendMissing(acc, items);
    AppendMissingPrefix(acc, items);
    assert forall k :: 0 <= k < |acc| ==> r[k] == acc[k];
    if |items| > 0 {
      var acc' := PushIfNew(acc, items[0]);
      AppendMissingCovers(acc', items[1..]);
      PushIfNewHas(acc, items[0]);
      forall k | 0 <= k < |items|
        ensures HasId(r, items[k].network_id)
      {
        if k > 0 {
          assert items[k] == items[1..][k - 1];
        } else {
          var w :| 0 <= w < |acc'| && acc'[w].network_id == items[0].network_id;
          assert r == AppendMissing(acc', items[1..]);
          assert acc'[w] == r[w] by { AppendMissingPrefix(acc', items[1..]); }
        }
      }
    }
  }

  /** Each appended entry has an id new to the list and is the first incoming entry with that id. */
  lemma {:induction false} AppendMissingNew(acc: seq<NetworkSummary>, items: seq<NetworkSummary>)
    ensures forall k :: |acc| <= k < |AppendMissing(acc, items)| ==>
      var id := AppendMissing(acc, items)[k].network_id;
      !HasId(acc, id) && HasId(items, id) && AppendMissing(acc, items)[k] == items[FirstWithId(items, id)]
    decreases |items|
  {
    if |items| > 0 {
      var r := AppendMissing(acc, items);
      var acc' := PushIfNew(acc, items[0]);
      assert r == AppendMissing(acc', items[1..]);
      AppendMissingNew(acc', items[1..]);
      AppendMissingPrefix(acc', items[1..]);
      PushIfNewHas(acc, items[0]);
      forall k | |acc| <= k < |r|
        ensures !HasId(acc, r[k].network_id) && HasId(items, r[k].network_id)
        ensures r[k] == items[FirstWithId(items, r[k].network_id)]
      {
        if k < |acc'| {
          assert acc' == acc + [items[0]] && k == |acc|;
          assert r[k] == acc'[k] == items[0];
        } else {
          var id := r[k].network_id;
          assert !HasId(acc', id);
          assert forall w :: 0 <= w < |acc| ==> acc'[w] == acc[w];
          assert id != items[0].network_id;
          var j := FirstWithId(items[1..], id);
          assert items[1..][j] == items[j + 1];
          FirstWithIdSkip(items, id);
        }
      }
    }
  }

  /** Appending keeps the ids unique. */
  lemma AppendMissingUnique(acc: seq<NetworkSummary>, items: seq<NetworkSummary>)
    requires UniqueIds(acc)
    ensures UniqueIds(AppendMissing(acc, items))
  {
    var r := AppendMissing(acc, items);
    AppendMissingPrefix(acc, items);
    AppendMissingNew(acc, items);
    forall i, j | 0 <= i < j < |r|
      ensures r[i].network_id != r[j].network_id
    {
      if j < |acc| {
        assert r[i] == acc[i] && r[j] == acc[j];
      } else if i < |acc| {
        assert r[i] == acc[i];
      } else {
        AppendMissingOrder(acc, items, i, j);
      }
    }
  }

  /** Entries appended later come from later positions of the incoming list. */
  lemma {:induction false} AppendMissingOrder(acc: seq<NetworkSummary>, items: seq<NetworkSummary>, i: int, j: int)
    requires |acc| <= i < j < |AppendMissing(acc, items)|
    ensures HasId(items, AppendMissing(acc, items)[i].network_id)
    ensures FirstWithId(items, AppendMissing(acc, items)[i].network_id) <
            FirstWithId(items, AppendMissing(acc, items)[j].network_id)
    decreases |items|
  {
    AppendMissingNew(acc, items);
    var r := AppendMissing(acc, items);
    assert |items| > 0 by {
      if |items| == 0 { assert false; }
    }
    var acc' := PushIfNew(acc, items[0]);
    assert r == AppendMissing(acc', items[1..]);
    AppendMissingNew(acc', items[1..]);
    AppendMissingPrefix(acc', items[1..]);
    PushIfNewHas(acc, items[0]);
    var idj := r[j].network_id;
    assert !HasId(acc', idj);
    assert idj != items[0].network_id;
    FirstWithIdSkip(items, idj);
    if i < |acc'| {
      assert acc' == acc + [items[0]] && r[i] == items[0];
    } else {
      var idi := r[i].network_id;
      assert !HasId(acc', idi);
      assert idi != items[0].network_id;
      FirstWithIdSkip(items, idi);
      AppendMissingOrder(acc', items[1..], i, j);
    }
  }

  /** `network_name && typeof ne_count === "number"`: every summary with that name takes the count. */
  function SetNeCount(nets: seq<NetworkSummary>, name: Option<string>, ne: Option<int>): seq<NetworkSummary> {
    if name.Some? && name.value != "" && ne.Some? then
      seq(|nets|, k requires 0 <= k < |nets| =>
        if nets[k].network_name == name.value then nets[k].(ne_count := ne.value) else nets[k])
    else nets
  }

  /** Sum of `ne_count` over a list (`reduce` from 0). */
  function SumNe(s: seq<NetworkSummary>): int {
    if |s| == 0 then 0 else s[0].ne_count + SumNe(s[1..])
  }

  /** Sum of `site_count` over a list. */
  function SumSites(s: seq<NetworkSummary>): int {
    if |s| == 0 then 0 else s[0].site_count + SumSites(s[1..])
  }

  /** `x || 0` over an optional number. */
  function OrZero(x: Option<int>): int {
    if x.Some? then x.value else 0
  }

  /** The payload of `updateNetworksSummary`: merge, append, then the name/count rule, then totals. */
  function UpdateNetworksSummarySpec(data: SummaryData, incoming: seq<NetworkSummary>,
                                     name: Option<string>, ne: Option<int>): SummaryData {
    var merged := if |incoming| > 0 then AppendMissing(MergeExisting(data.networks, incoming), incoming)
                  else data.networks;
    var nets := SetNeCount(merged, name, ne);
    SummaryData(nets, Some(SumNe(nets)), Some(|nets|), Some(OrZero(data.total_online_networks)),
                Some(OrZero(data.total_online_nes)), Some(OrZero(data.total_online_sites)), Some(SumSites(nets)))
  }

  /** The thunk, computing the new list with the pushing loop. */
  method UpdateNetworksSummary(data: SummaryData, incoming: seq<NetworkSummary>,
                               name: Option<string>, ne: Option<int>) returns (p: SummaryData)
    ensures p == UpdateNetworksSummarySpec(data, incoming, name, ne)
    ensures p.total_nes == Some(SumNe(p.networks)) && p.total_sites == Some(SumSites(p.networks))
    ensures p.total_networks == Some(|p.networks|)
  {
    var updated := data.networks;
    if |incoming| > 0 {
      updated := AppendNew(MergeExisting(data.networks, incoming), incoming);
    }
    updated := SetNeCount(updated, name, ne);
    p := SummaryData(updated, Some(SumNe(updated)), Some(|updated|), Some(OrZero(data.total_online_networks)),
                     Some(OrZero(data.total_online_nes)), Some(OrZero(data.total_online_sites)),
                     Some(SumSites(updated)));
  }

  /** The existing entries keep their places and lock state, and they come first;
      after them come exactly the incoming entries with new ids, the first of each id. */
  lemma UpdateSummaryShape(data: SummaryData, incoming: seq<NetworkSummary>)
    requires |incoming| > 0
    ensures var r := UpdateNetworksSummarySpec(data, incoming, None, None).networks;
      |r| >= |data.networks| &&
      (forall k :: 0 <= k < |data.networks| ==>
        r[k].network_id == data.networks[k].network_id && r[k].isLocked == data.networks[k].isLocked) &&
      (forall k :: 0 <= k < |data.networks| && !HasId(incoming, data.networks[k].network_id) ==> r[k] == data.networks[k]) &&
      (forall k :: |data.networks| <= k < |r| ==>
        !HasId(data.networks, r[k].network_id) && HasId(incoming, r[k].network_id) &&
        r[k] == incoming[FirstWithId(incoming, r[k].network_id)]) &&
      (forall k :: 0 <= k < |incoming| ==> HasId(r, incoming[k].network_id))
  {
    var m := MergeExisting(data.networks, incoming);
    MergeExistingKeepsPlaces(data.networks, incoming);
    AppendMissingPrefix(m, incoming);
    AppendMissingNew(m, incoming);
    AppendMissingCovers(m, incoming);
    var r := AppendMissing(m, incoming);
    assert forall k :: 0 <= k < |m| ==> r[k] == m[k];
  }

  /** Ids that were unique stay unique after the merge. */
  lemma UpdateSummaryKeepsUniqueIds(data: SummaryData, incoming: seq<NetworkSummary>, name: Option<string>, ne: Option<int>)
    requires UniqueIds(data.networks)
    ensures UniqueIds(UpdateNetworksSummarySpec(data, incoming, name, ne).networks)
  {
    if |incoming| > 0 {
      var m := MergeExisting(data.networks, incoming);
      MergeExistingKeepsPlaces(data.networks, incoming);
      assert UniqueIds(m);
      AppendMissingUnique(m, incoming);
    }
  }

  /** The name/count rule changes only `ne_count`, only on entries with that name. */
  lemma SetNeCountOnlyCounts(nets: seq<NetworkSummary>, name: string, ne: int)
    requires name != ""
    ensures var r := SetNeCount(nets, Some(name), Some(ne));
      |r| == |nets| &&
      (forall k :: 0 <= k < |r| && nets[k].network_name == name ==> r[k] == nets[k].(ne_count := ne)) &&
      (forall k :: 0 <= k < |r| && nets[k].network_name != name ==> r[k] == nets[k])
  {
  }

  /** The name/count rule leaves the site total as it was. */
  lemma {:induction false} SetNeCountKeepsSites(nets: seq<NetworkSummary>, name: Option<string>, ne: Option<int>)
    ensures SumSites(SetNeCount(nets, name, ne)) == SumSites(nets)
  {
    if name.Some? && name.value != "" && ne.Some? && |nets| > 0 {
      SetNeCountKeepsSites(nets[1..], name, ne);
      assert SetNeCount(nets, name, ne)[1..] == SetNeCount(nets[1..], name, ne);
    }
  }

  /** With unique names, naming one network sets its count and moves the total by the difference. */
  lemma {:induction false} SetNeCountTotal(nets: seq<NetworkSummary>, k: int, ne: int)
    requires 0 <= k < |nets| && nets[k].network_name != ""
    requires forall j :: 0 <= j < |nets| && j != k ==> nets[j].network_name != nets[k].network_name
    ensures SumNe(SetNeCount(nets, Some(nets[k].network_name), Some(ne))) == SumNe(nets) - nets[k].ne_count + ne
  {
    var name := nets[k].network_name;
    var r := SetNeCount(nets, Some(name), Some(ne));
    assert r == nets[k := nets[k].(ne_count := ne)];
    SumNeUpdate(nets, k, nets[k].(ne_count := ne));
  }

  lemma {:induction false} SumNeUpdate(s: seq<NetworkSummary>, k: int, n: NetworkSummary)
    requires 0 <= k < |s|
    ensures SumNe(s[k := n]) == SumNe(s) - s[k].ne_count + n.ne_count
  {
    if k == 0 {
      assert s[k := n][1..] == s[1..];
    } else {
      assert s[k := n][1..] == s[1..][k - 1 := n];
      SumNeUpdate(s[1..], k - 1, n);
    }
  }

  // ------------------------------------------------------- deleteNetworkSummary

  /** `deleteNetworkSummary`: the list without every summary with the id, or 404 when none had it. */
  function DeleteNetworkSummary(nets: seq<NetworkSummary>, id: string): (r: Outcome<seq<NetworkSummary>>)
    ensures r.Rejected? <==> !HasId(nets, id)
    ensures r.Rejected? ==> r.error == Status(404, "Network not found")
    ensures r.Fulfilled? ==> !HasId(r.value, id) && |r.value| < |nets|
    ensures r.Fulfilled? ==> forall k :: 0 <= k < |r.value| ==> r.value[k] in nets
    ensures r.Fulfilled? ==> forall k :: 0 <= k < |nets| && nets[k].network_id != id ==> nets[k] in r.value
    ensures r.Fulfilled? ==> KeptInOrder(r.value, nets, (n: NetworkSummary) => n.network_id != id)
  {
    var kept := Filter(nets, (n: NetworkSummary) => n.network_id != id);
    FilterKeepsAll(nets, (n: NetworkSummary) => n.network_id != id);
    FilterKeptInOrder(nets, (n: NetworkSummary) => n.network_id != id);
    if |kept| == |nets| then Rejected(Status(404, "Network not found"))
    else Fulfilled(kept)
  }

  // ----------------------------------------------------------- syncNetworkStats

  /** The `ne_count` a detail network reports: its devices, or its number of sites when it has none. */
  function ReportedNeCount(d: NetworkDetail): int {
    if |d.devices| != 0 then |d.devices| else |d.sites|
  }

  /** The summary `syncNetworkStats` builds for a detail network: a fresh one when the id is
      unknown, otherwise a copy of the existing one with the detail's name and counts. */
  function SyncedSummary(stats: seq<NetworkSummary>, d: NetworkDetail): NetworkSummary {
    var j := FirstWithId(stats, d.network_id);
    if j == -1 then NetworkSummary(d.network_id, d.network_name, ReportedNeCount(d), |d.sites|, false)
    else stats[j].(network_name := d.network_name, ne_count := ReportedNeCount(d), site_count := |d.sites|)
  }

  /** The entry emitted for one detail network as written: the stored `ne_count` is compared
      with the device count, although the count stored is `ReportedNeCount`. */
  function SyncEntryAsWritten(stats: seq<NetworkSummary>, d: NetworkDetail): Option<NetworkSummary> {
    var j := FirstWithId(stats, d.network_id);
    if j == -1 || stats[j].network_name != d.network_name || stats[j].ne_count != |d.devices| ||
       stats[j].site_count != |d.sites|
    then Some(SyncedSummary(stats, d))
    else None
  }

  /** The entry emitted for one detail network, comparing with the count that would be stored. */
  function SyncEntry(stats: seq<NetworkSummary>, d: NetworkDetail): Option<NetworkSummary> {
    var j := FirstWithId(stats, d.network_id);
    if j == -1 || stats[j].network_name != d.network_name || stats[j].ne_count != ReportedNeCount(d) ||
       stats[j].site_count != |d.sites|
    then Some(SyncedSummary(stats, d))
    else None
  }

  function Emit(e: Option<NetworkSummary>): seq<NetworkSummary> {
    if e.Some? then [e.value] else []
  }

  /** The present entries of a list of optional ones, in order. */
  function Collect(es: seq<Option<NetworkSummary>>): seq<NetworkSummary> {
    if |es| == 0 then [] else Collect(es[..|es| - 1]) + Emit(es[|es| - 1])
  }

  function SyncOptions(stats: seq<NetworkSummary>, details: seq<NetworkDetail>): seq<Option<NetworkSummary>> {
    seq(|details|, i requires 0 <= i < |details| => SyncEntry(stats, details[i]))
  }

  /** The entries emitted for a list of detail networks, in their order. */
  function SyncEntries(stats: seq<NetworkSummary>, details: seq<NetworkDetail>): seq<NetworkSummary> {
    Collect(SyncOptions(stats, details))
  }

  /** The comparison loop of `syncNetworkStats`. */
  method SyncNetworkStats(stats: seq<NetworkSummary>, details: seq<NetworkDetail>) returns (emitted: seq<NetworkSummary>)
    ensures emitted == SyncEntries(stats, details)
  {
    ghost var opts := SyncOptions(stats, details);
    emitted := [];
    var i := 0;
    while i < |details|
      invariant 0 <= i <= |details|
      invariant emitted == Collect(opts[..i])
    {
      assert opts[..i + 1][..i] == opts[..i];
      var d := details[i];
      var j := FirstWithId(stats, d.network_id);
      var fromDevices := |d.devices|;
      var reported := if fromDevices != 0 then fromDevices else |d.sites|;
      if j == -1 {
        emitted := emitted + [NetworkSummary(d.network_id, d.network_name, reported, |d.sites|, false)];
      } else if stats[j].network_name != d.network_name || stats[j].ne_count != reported || stats[j].site_count != |d.sites| {
        emitted := emitted + [stats[j].(network_name := d.network_name, ne_count := reported, site_count := |d.sites|)];
      }
      i := i + 1;
    }
    assert opts[..i] == opts;
  }

  lemma {:induction false} CollectEmpty(es: seq<Option<NetworkSummary>>)
    ensures |Collect(es)| == 0 <==> forall i :: 0 <= i < |es| ==> es[i].None?
  {
    if |es| > 0 {
      var init := es[..|es| - 1];
      CollectEmpty(init);
      assert forall i :: 0 <= i < |init| ==> init[i] == es[i];
    }
  }

  lemma {:induction false} CollectHas(es: seq<Option<NetworkSummary>>)
    ensures forall i :: 0 <= i < |es| && es[i].Some? ==> es[i].value in Collect(es)
  {
    if |es| > 0 {
      var init := es[..|es| - 1];
      CollectHas(init);
      assert forall i :: 0 <= i < |init| ==> init[i] == es[i];
    }
  }

  /** Nothing is emitted (and nothing dispatched) exactly when every detail network is in sync. */
  lemma SyncEntriesEmpty(stats: seq<NetworkSummary>, details: seq<NetworkDetail>)
    ensures |SyncEntries(stats, details)| == 0 <==> forall i :: 0 <= i < |details| ==> SyncEntry(stats, details[i]).None?
  {
    var es := SyncOptions(stats, details);
    CollectEmpty(es);
    assert forall i :: 0 <= i < |details| ==> es[i] == SyncEntry(stats, details[i]);
  }

  /** The entry of every detail network missing from the summary is emitted with its id. */
  lemma SyncEntriesMissing(stats: seq<NetworkSummary>, details: seq<NetworkDetail>)
    ensures forall i :: 0 <= i < |details| && !HasId(stats, details[i].network_id) ==>
      HasId(SyncEntries(stats, details), details[i].network_id)
  {
    var es := SyncOptions(stats, details);
    CollectHas(es);
    forall i | 0 <= i < |details| && !HasId(stats, details[i].network_id)
      ensures HasId(SyncEntries(stats, details), details[i].network_id)
    {
      assert es[i].Some? && es[i].value.network_id == details[i].network_id;
      var w :| 0 <= w < |Collect(es)| && Collect(es)[w] == es[i].value;
    }
  }

  /** After the emitted entries are merged, every detail network has a summary. */
  lemma SyncCoversDetails(data: SummaryData, details: seq<NetworkDetail>)
    requires |SyncEntries(data.networks, details)| > 0
    ensures var r := UpdateNetworksSummarySpec(data, SyncEntries(data.networks, details), None, None).networks;
      forall i :: 0 <= i < |details| ==> HasId(r, details[i].network_id)
  {
    var incoming := SyncEntries(data.networks, details);
    var m := MergeExisting(data.networks, incoming);
    MergeExistingKeepsPlaces(data.networks, incoming);
    SyncEntriesMissing(data.networks, details);
    AppendMissingCovers(m, incoming);
    var r := AppendMissing(m, incoming);
    forall i | 0 <= i < |details|
      ensures HasId(r, details[i].network_id)
    {
      var id := details[i].network_id;
      if HasId(data.networks, id) {
        var w :| 0 <= w < |data.networks| && data.networks[w].network_id == id;
        assert m[w].network_id == id;
      } else {
        var w :| 0 <= w < |incoming| && incoming[w].network_id == id;
      }
    }
  }

  /** After one entry is merged, the first summary with its id carries its name and counts. */
  lemma MergedRowFor(stats: seq<NetworkSummary>, e: NetworkSummary)
    ensures var r := AppendMissing(MergeExisting(stats, [e]), [e]);
      var j := FirstWithId(r, e.network_id);
      0 <= j && r[j].network_name == e.network_name && r[j].ne_count == e.ne_count && r[j].site_count == e.site_count
  {
    var id := e.network_id;
    var m := MergeExisting(stats, [e]);
    MergeExistingKeepsPlaces(stats, [e]);
    assert [e][0] == e;
    assert FirstWithId([e], id) == 0;
    var r := AppendMissing(m, [e]);
    assert [e][1..] == [];
    assert AppendMissing(PushIfNew(m, e), []) == PushIfNew(m, e);
    assert r == PushIfNew(m, e);
    PushIfNewHas(m, e);
    var j := FirstWithId(r, id);
    if HasId(stats, id) {
      var j0 := FirstWithId(stats, id);
      assert m[j0].network_id == id;
      assert r == m;
      assert j == j0;
    } else {
      assert !HasId(m, id);
      assert r == m + [e];
      assert j == |m|;
    }
  }

  /** As written, a network with sites but no devices is emitted again after its own entry was
      merged: its stored `ne_count` is the site count, compared against the device count 0. */
  lemma SyncReemitsAsWritten(data: SummaryData, d: NetworkDetail)
    requires |d.devices| == 0 && |d.sites| > 0
    ensures var e := SyncedSummary(data.networks, d);
      SyncEntryAsWritten(UpdateNetworksSummarySpec(data, [e], None, None).networks, d).Some?
  {
    var e := SyncedSummary(data.networks, d);
    MergedRowFor(data.networks, e);
  }

  /** With the comparison against the stored count, merging the emitted entry brings the network in sync. */
  lemma SyncSettles(data: SummaryData, d: NetworkDetail)
    ensures var e := SyncedSummary(data.networks, d);
      SyncEntry(UpdateNetworksSummarySpec(data, [e], None, None).networks, d).None?
  {
    var e := SyncedSummary(data.networks, d);
    MergedRowFor(data.networks, e);
  }

  // ------------------------------------------------------------------- reducers

  /** The slice state and its extra reducers. */
  class NetworksStore {
    var loading: bool
    var error: Option<string>
    var data: SummaryData

    constructor ()
      ensures loading && error == None && data == InitialData()
    {
      loading := true;
      error := None;
      data := InitialData();
    }

    /** `getNetworks.pending`. */
    method GetNetworksPending()
      modifies this
      ensures loading && error == old(error) && data == old(data)
    {
      loading := true;
    }

    /** `getNetworks.fulfilled`. */
    method GetNetworksFulfilled(p: SummaryData)
      modifies this
      ensures data == ApplyPayload(old(data), p) && !loading && error == None
    {
      data := ApplyPayload(data, p);
      loading := false;
      error := None;
    }

    /** `getNetworks.rejected` and `deleteNetworkSummary.rejected`. */
    method Rejected(e: Rejection)
      modifies this
      ensures !loading && error == ErrorMessage(e) && data == old(data)
    {
      loading := false;
      error := ErrorMessage(e);
    }

    /** `updateNetworksSummary.fulfilled`: the flags are not touched. */
    method UpdateNetworksSummaryFulfilled(p: SummaryData)
      modifies this
      ensures data == ApplyPayload(old(data), p) && loading == old(loading) && error == old(error)
    {
      data := ApplyPayload(data, p);
    }

    /** `deleteNetworkSummary.fulfilled`: only the list is replaced; the totals stay. */
    method DeleteNetworkSummaryFulfilled(nets: seq<NetworkSummary>)
      modifies this
      ensures data == old(data).(networks := nets) && !loading && error == None
    {
      data := data.(networks := nets);
      loading := false;
      error := None;
    }

    /** Dispatching `getNetworks` against the server's reply. */
    method DispatchGetNetworks(fetch: Reply<SummaryData>)
      modifies this
      ensures |old(data.networks)| > 0 ==> data == old(data) && !loading && error == None
      ensures |old(data.networks)| == 0 && fetch.Ok? ==> data == ApplyPayload(old(data), fetch.body)
      ensures |old(data.networks)| == 0 && fetch.Failure? ==> data == old(data) && error == ErrorMessage(Thrown(fetch.message))
    {
      GetNetworksPending();
      var r := GetNetworks(data, fetch);
      if |data.networks| > 0 { CacheHitKeepsData(data, fetch); }
      match r
      case Fulfilled(p) => GetNetworksFulfilled(p);
      case Rejected(e) => Rejected(e);
    }

    /** Dispatching `updateNetworksSummary`. */
    method DispatchUpdateNetworksSummary(incoming: seq<NetworkSummary>, name: Option<string>, ne: Option<int>)
      modifies this
      ensures data == ApplyPayload(old(data), UpdateNetworksSummarySpec(old(data), incoming, name, ne))
      ensures loading == old(loading) && error == old(error)
    {
      var p := UpdateNetworksSummary(data, incoming, name, ne);
      UpdateNetworksSummaryFulfilled(p);
    }

    /** Dispatching `deleteNetworkSummary`. */
    method DispatchDeleteNetworkSummary(id: string)
      modifies this
      ensures DeleteNetworkSummary(old(data.networks), id).Fulfilled? ==>
        data == old(data).(networks := DeleteNetworkSummary(old(data.networks), id).value) && error == None
      ensures DeleteNetworkSummary(old(data.networks), id).Rejected? ==> data == old(data) && error == Some("Rejected")
      ensures !loading
    {
      var r := DeleteNetworkSummary(data.networks, id);
      match r
      case Fulfilled(nets) => DeleteNetworkSummaryFulfilled(nets);
      case Rejected(e) => Rejected(e);
    }

    /** Dispatching `syncNetworkStats` over the detail cache: the summary thunk runs only
        when some entry was emitted. */
    method DispatchSyncNetworkStats(details: seq<NetworkDetail>)
      modifies this
      ensures var e := SyncEntries(old(data.networks), details);
        (|e| == 0 ==> data == old(data)) &&
        (|e| > 0 ==> data == ApplyPayload(old(data), UpdateNetworksSummarySpec(old(data), e, None, None)))
      ensures loading == old(loading) && error == old(error)
    {
      var emitted := SyncNetworkStats(data.networks, details);
      if |emitted| > 0 {
        DispatchUpdateNetworksSummary(emitted, None, None);
      }
    }
  }
}
