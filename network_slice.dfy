/** The network details slice: the cached list of networks with their sites and root
    elements, the thunks that edit it (each also pushing a summary entry to the summary
    slice) and the extra reducers that store their payloads. */
module NetworkSlice {
  import opened Common
  import opened Interface
  import NetworksSlice

  // ------------------------------------------------------------- string helpers

  /** The characters `String.prototype.trim` removes: ECMAScript white space and line terminators. */
  predicate IsJsSpace(c: char) {
    var n := c as int;
    (9 <= n <= 13) || n == 0x20 || n == 0xA0 || n == 0x1680 || (0x2000 <= n <= 0x200A) ||
    n == 0x2028 || n == 0x2029 || n == 0x202F || n == 0x205F || n == 0x3000 || n == 0xFEFF
  }

  function TrimStart(s: string): (r: string)
    ensures |r| <= |s| && r == s[|s| - |r|..]
    ensures |r| > 0 ==> !IsJsSpace(r[0])
    ensures forall k :: 0 <= k < |s| - |r| ==> IsJsSpace(s[k])
  {
    if |s| > 0 && IsJsSpace(s[0]) then TrimStart(s[1..]) else s
  }

  function TrimEnd(s: string): (r: string)
    ensures |r| <= |s| && r == s[..|r|]
    ensures |r| > 0 ==> !IsJsSpace(r[|r| - 1])
    ensures forall k :: |r| <= k < |s| ==> IsJsSpace(s[k])
  {
    if |s| > 0 && IsJsSpace(s[|s| - 1]) then TrimEnd(s[..|s| - 1]) else s
  }

  /** `s.trim()`. */
  function Trim(s: string): string {
    TrimEnd(TrimStart(s))
  }

  /** The trimmed string is a slice of the original whose ends are not white space and
      outside of which everything is white space. */
  lemma TrimSlice(s: string)
    ensures exists i, j :: (0 <= i <= j <= |s| && Trim(s) == s[i..j] &&
      (forall k :: 0 <= k < i ==> IsJsSpace(s[k])) && (forall k :: j <= k < |s| ==> IsJsSpace(s[k])))
    ensures |Trim(s)| > 0 ==> !IsJsSpace(Trim(s)[0]) && !IsJsSpace(Trim(s)[|Trim(s)| - 1])
  {
    var a := TrimStart(s);
    var i := |s| - |a|;
    var b := TrimEnd(a);
    assert Trim(s) == s[i..i + |b|];
    forall k | i + |b| <= k < |s|
      ensures IsJsSpace(s[k])
    {
      assert s[k] == a[k - i];
    }
  }

  /** Trimming twice is trimming once. */
  lemma TrimIdempotent(s: string)
    ensures Trim(Trim(s)) == Trim(s)
  {
    var t := Trim(s);
    if |t| > 0 {
      assert !IsJsSpace(t[0]) && !IsJsSpace(t[|t| - 1]);
      assert TrimStart(t) == t;
      assert TrimEnd(t) == t;
    }
  }

  /** A name trims to "" exactly when it is all white space. */
  lemma TrimEmpty(s: string)
    ensures Trim(s) == "" <==> forall k :: 0 <= k < |s| ==> IsJsSpace(s[k])
  {
    var a := TrimStart(s);
    if Trim(s) == "" && |a| > 0 {
      assert false;
    }
  }

  /** `names.join(sep)`. */
  function Join(names: seq<string>, sep: string): string {
    if |names| == 0 then "" else if |names| == 1 then names[0] else names[0] + sep + Join(names[1..], sep)
  }

  // ------------------------------------------------------------------ look-ups

  function FindDetail(details: seq<NetworkDetail>, id: string): (i: int)
    ensures -1 <= i < |details|
    ensures i == -1 <==> forall k :: 0 <= k < |details| ==> details[k].network_id != id
    ensures 0 <= i ==> details[i].network_id == id && forall k :: 0 <= k < i ==> details[k].network_id != id
  {
    FindIndex(details, (n: NetworkDetail) => n.network_id == id)
  }

  function FindSite(sites: seq<Site>, id: string): (i: int)
    ensures -1 <= i < |sites|
    ensures i == -1 <==> forall k :: 0 <= k < |sites| ==> sites[k].site_id != id
    ensures 0 <= i ==> sites[i].site_id == id && forall k :: 0 <= k < i ==> sites[k].site_id != id
  {
    FindIndex(sites, (s: Site) => s.site_id == id)
  }

  predicate Named(e: Record, name: string) {
    Prop(e, "ne_name") == VStr(name)
  }

  function FindElement(elements: seq<Record>, name: string): (i: int)
    ensures -1 <= i < |elements|
    ensures i == -1 <==> forall k :: 0 <= k < |elements| ==> !Named(elements[k], name)
    ensures 0 <= i ==> Named(elements[i], name)
  {
    FindIndex(elements, (e: Record) => Named(e, name))
  }

  /** Number of elements of a list with the given `ne_name`. */
  function CountNamed(elements: seq<Record>, name: string): nat {
    if |elements| == 0 then 0 else (if Named(elements[0], name) then 1 else 0) + CountNamed(elements[1..], name)
  }

  /** Removing the elements with a name shortens the list by their number. */
  lemma {:induction false} FilterNamedLength(elements: seq<Record>, name: string)
    ensures |Filter(elements, (e: Record) => !Named(e, name))| == |elements| - CountNamed(elements, name)
  {
    if |elements| > 0 {
      FilterNamedLength(elements[1..], name);
    }
  }

  // ---------------------------------------------------------- network totals

  /** Elements of one network: those of its sites plus its root elements. */
  function NetworkNeCount(n: NetworkDetail): nat {
    SiteElementCount(n.sites) + |n.elements|
  }

  function NeTotal(details: seq<NetworkDetail>): nat {
    if |details| == 0 then 0 else NetworkNeCount(details[0]) + NeTotal(details[1..])
  }

  function SiteTotal(details: seq<NetworkDetail>): nat {
    if |details| == 0 then 0 else |details[0].sites| + SiteTotal(details[1..])
  }

  lemma {:induction false} TotalsAppend(a: seq<NetworkDetail>, n: NetworkDetail)
    ensures NeTotal(a + [n]) == NeTotal(a) + NetworkNeCount(n)
    ensures SiteTotal(a + [n]) == SiteTotal(a) + |n.sites|
  {
    if |a| > 0 {
      assert (a + [n])[1..] == a[1..] + [n];
      TotalsAppend(a[1..], n);
    }
  }

  lemma {:induction false} TotalsUpdate(a: seq<NetworkDetail>, i: nat, n: NetworkDetail)
    requires i < |a|
    ensures NeTotal(a[i := n]) == NeTotal(a) - NetworkNeCount(a[i]) + NetworkNeCount(n)
    ensures SiteTotal(a[i := n]) == SiteTotal(a) - |a[i].sites| + |n.sites|
  {
    if i == 0 {
      assert a[i := n][1..] == a[1..];
    } else {
      assert a[i := n][1..] == a[1..][i - 1 := n];
      TotalsUpdate(a[1..], i - 1, n);
    }
  }

  // ------------------------------------------------------ updateNetworkDetails

  /** The payload of `updateNetworkDetails`: the new list and its recomputed totals. */
  datatype DetailsPayload = DetailsPayload(updatedNetworkDetails: seq<NetworkDetail>, neCount: int, siteCount: int)

  /** Replace the first network with the id, or append when there is none. */
  function Upsert(details: seq<NetworkDetail>, n: NetworkDetail): seq<NetworkDetail> {
    var i := FindDetail(details, n.network_id);
    if i == -1 then details + [n] else details[i := n]
  }

  /** An upsert overwrites the first entry with the id in place, or appends once;
      every other entry is unchanged. */
  lemma UpsertPlaces(details: seq<NetworkDetail>, n: NetworkDetail)
    ensures var r := Upsert(details, n); var i := FindDetail(details, n.network_id);
      (i == -1 ==> |r| == |details| + 1 && r[..|details|] == details && r[|details|] == n) &&
      (i != -1 ==> |r| == |details| && r[i] == n && forall k :: 0 <= k < |r| && k != i ==> r[k] == details[k])
    ensures FindDetail(Upsert(details, n), n.network_id) ==
      (if FindDetail(details, n.network_id) == -1 then |details| else FindDetail(details, n.network_id))
  {
    var r := Upsert(details, n);
    var i := FindDetail(details, n.network_id);
    if i == -1 {
      assert r[|details|] == n;
      assert forall k :: 0 <= k < |details| ==> r[k] == details[k];
    } else {
      assert forall k :: 0 <= k < i ==> r[k] == details[k];
    }
  }

  /** Upserting the same network twice is upserting it once. */
  lemma UpsertIdempotent(details: seq<NetworkDetail>, n: NetworkDetail)
    ensures Upsert(Upsert(details, n), n) == Upsert(details, n)
  {
    UpsertPlaces(details, n);
  }

  /** `updateNetworkDetails`. */
  function UpdateNetworkDetails(details: seq<NetworkDetail>, n: NetworkDetail): (p: DetailsPayload)
    ensures p.updatedNetworkDetails == Upsert(details, n)
    ensures p.neCount == NeTotal(p.updatedNetworkDetails) && p.siteCount == SiteTotal(p.updatedNetworkDetails)
  {
    var r := Upsert(details, n);
    DetailsPayload(r, NeTotal(r), SiteTotal(r))
  }

  /** The totals after an upsert move by the difference between the new network and the one it replaced. */
  lemma UpsertTotals(details: seq<NetworkDetail>, n: NetworkDetail)
    ensures var p := UpdateNetworkDetails(details, n); var i := FindDetail(details, n.network_id);
      (i == -1 ==> p.neCount == NeTotal(details) + NetworkNeCount(n) && p.siteCount == SiteTotal(details) + |n.sites|) &&
      (i != -1 ==> p.neCount == NeTotal(details) - NetworkNeCount(details[i]) + NetworkNeCount(n) &&
                   p.siteCount == SiteTotal(details) - |details[i].sites| + |n.sites|)
  {
    var i := FindDetail(details, n.network_id);
    if i == -1 {
      TotalsAppend(details, n);
    } else {
      TotalsUpdate(details, i, n);
    }
  }

  // --------------------------------------------------------- thunk plumbing

  /** A thunk's outcome and the two caches after the actions it dispatched itself. */
  datatype Run<+T> = Run(outcome: Outcome<T>, state: CacheState)

  /** The summary entry a thunk dispatches for a network. */
  function SummaryOf(id: string, name: string, ne: int, sites: int): NetworkSummary {
    NetworkSummary(id, name, ne, sites, false)
  }

  /** Dispatching `updateNetworksSummary({ newNetwork: [e] })` and storing its payload. */
  function PushSummary(s: SummaryData, e: NetworkSummary): SummaryData {
    NetworksSlice.ApplyPayload(s, NetworksSlice.UpdateNetworksSummarySpec(s, [e], None, None))
  }

  /** Dispatching `updateNetworkDetails({ newNetwork: n })` and storing its payload. */
  function PushDetail(details: seq<NetworkDetail>, n: NetworkDetail): seq<NetworkDetail> {
    UpdateNetworkDetails(details, n).updatedNetworkDetails
  }

  // ---------------------------------------------------------------- getNetwork

  /** `getNetwork`: a cached detail is returned as is; otherwise the server's reply, tagged
      with the requested id, is upserted into the cache and returned. */
  function GetNetwork(s: CacheState, id: string, fetch: Reply<NetworkDetail>): (r: Run<NetworkDetail>)
    ensures FindDetail(s.details, id) != -1 ==> r == Run(Fulfilled(s.details[FindDetail(s.details, id)]), s)
    ensures FindDetail(s.details, id) == -1 && fetch.Failure? ==> r == Run(Rejected(Thrown(fetch.message)), s)
    ensures FindDetail(s.details, id) == -1 && fetch.Ok? ==>
      r.outcome == Fulfilled(fetch.body.(network_id := id)) &&
      r.state == s.(details := s.details + [fetch.body.(network_id := id)])
  {
    var i := FindDetail(s.details, id);
    if i != -1 then Run(Fulfilled(s.details[i]), s)
    else
      match fetch
      case Failure(m) => Run(Rejected(Thrown(m)), s)
      case Ok(data) =>
        var n := data.(network_id := id);
        Run(Fulfilled(n), s.(details := PushDetail(s.details, n)))
  }

  /** A fetched network ends up in the cache exactly once although both the inner dispatch
      and the `fulfilled` reducer upsert it. */
  lemma GetNetworkStoresOnce(s: CacheState, id: string, data: NetworkDetail)
    requires FindDetail(s.details, id) == -1
    ensures var r := GetNetwork(s, id, Ok(data));
      Upsert(r.state.details, r.outcome.value) == s.details + [data.(network_id := id)]
  {
    UpsertIdempotent(s.details, data.(network_id := id));
  }

  // ---------------------------------------------------------------- addNetwork

  /** `addNetwork`: the summary gets the element count of the submitted sites; the stored
      network gets the sites without their elements (and without locations). */
  function AddNetwork(s: CacheState, id: string, name: string, sites: seq<Site>): (r: Run<NetworkDetail>)
    ensures r.outcome.Fulfilled? && r.outcome.value.network_id == id && r.outcome.value.network_name == name
    ensures |r.outcome.value.sites| == |sites| && SiteElementCount(r.outcome.value.sites) == 0
    ensures forall k :: 0 <= k < |sites| ==>
      r.outcome.value.sites[k].site_id == sites[k].site_id && r.outcome.value.sites[k].site_name == sites[k].site_name
    ensures r.state == s.(summary := PushSummary(s.summary, SummaryOf(id, name, SiteElementCount(sites), |sites|)))
  {
    var stored := seq(|sites|, k requires 0 <= k < |sites| => Site(sites[k].site_id, sites[k].site_name, None, []));
    assert SiteElementCount(stored) == 0 by { EmptySitesCount(stored); }
    var n := NetworkDetail(id, name, stored, map[], map[], Topology([], []), false, 0, SiteElementCount(sites));
    Run(Fulfilled(n), s.(summary := PushSummary(s.summary, SummaryOf(id, name, SiteElementCount(sites), |sites|))))
  }

  lemma {:induction false} EmptySitesCount(sites: seq<Site>)
    requires forall k :: 0 <= k < |sites| ==> sites[k].elements == []
    ensures SiteElementCount(sites) == 0
  {
    if |sites| > 0 {
      EmptySitesCount(sites[1..]);
    }
  }

  // ------------------------------------------------------------- updateNetwork

  /** One submitted site of `updateNetwork`. */
  datatype SiteRequest = SiteRequest(site_id: string, site_name: string)

  /** A payload of `updateNetwork` and `deleteSite`: the network and the status. */
  datatype NetworkResult = NetworkResult(data: NetworkDetail, status: int)

  const InvalidSiteName: string := "存在不合法的站点名称"
  const SiteExists: string := "站点已存在"

  predicate HasSiteId(sites: seq<Site>, id: string) {
    exists k :: 0 <= k < |sites| && sites[k].site_id == id
  }

  function TrimmedNames(sites: seq<SiteRequest>): (r: seq<string>)
    ensures |r| == |sites| && forall k :: 0 <= k < |r| ==> r[k] == Trim(sites[k].site_name)
  {
    seq(|sites|, k requires 0 <= k < |sites| => Trim(sites[k].site_name))
  }

  function TrimmedSiteNames(sites: seq<Site>): (r: seq<string>)
    ensures |r| == |sites| && forall k :: 0 <= k < |r| ==> r[k] == Trim(sites[k].site_name)
  {
    seq(|sites|, k requires 0 <= k < |sites| => Trim(sites[k].site_name))
  }

  /** The submitted sites whose id is not among the network's sites. */
  function NewSiteRequests(existing: seq<Site>, sites: seq<SiteRequest>): seq<SiteRequest> {
    Filter(sites, (q: SiteRequest) => !HasSiteId(existing, q.site_id))
  }

  /** The sites created for the new requests: an empty id is replaced by a newId one. */
  function NewSites(reqs: seq<SiteRequest>, ids: nat -> string): (r: seq<Site>)
    ensures |r| == |reqs|
    ensures forall k :: 0 <= k < |r| ==>
      (r[k].site_name == Trim(reqs[k].site_name) && r[k].elements == [] &&
       r[k].site_location == None && r[k].site_id == (if reqs[k].site_id != "" then reqs[k].site_id else ids(k)))
  {
    seq(|reqs|, k requires 0 <= k < |reqs| =>
      Site(if reqs[k].site_id != "" then reqs[k].site_id else ids(k), Trim(reqs[k].site_name), None, []))
  }

  /** `updateNetwork`. */
  function UpdateNetwork(s: CacheState, id: string, name: string, sites: seq<SiteRequest>, ids: nat -> string): Run<NetworkResult> {
    var i := FindDetail(s.details, id);
    if i == -1 then Run(Rejected(Status(404, "Network not found")), s)
    else
      var net := s.details[i];
      var names := TrimmedNames(sites);
      var dups := Filter(names, (n: string) => n in TrimmedSiteNames(net.sites));
      if |sites| > 0 && "" in names then Run(Rejected(Status(400, InvalidSiteName)), s)
      else if |sites| > 0 && |dups| > 0 then Run(Rejected(Status(400, Join(dups, ", ") + SiteExists)), s)
      else
        var added := if |sites| > 0 then NewSites(NewSiteRequests(net.sites, sites), ids) else [];
        if net.network_name == name && |added| == 0 then Run(Fulfilled(NetworkResult(net, 304)), s)
        else
          var newSites := net.sites + added;
          var n := net.(network_name := name, sites := newSites, site_count := |newSites|,
                        ne_count := SiteElementCount(newSites));
          Run(Fulfilled(NetworkResult(n, 200)),
              s.(summary := PushSummary(s.summary, SummaryOf(id, name, n.ne_count, n.site_count))))
  }

  /** `updateNetwork` answers 404 exactly when the network is not cached; a rejection changes nothing. */
  lemma UpdateNetworkNotFound(s: CacheState, id: string, name: string, sites: seq<SiteRequest>, ids: nat -> string)
    ensures var r := UpdateNetwork(s, id, name, sites, ids);
      (FindDetail(s.details, id) == -1 <==> r.outcome == Rejected(Status(404, "Network not found"))) &&
      (r.outcome.Rejected? ==> r.state == s)
  {
  }

  /** A submitted site name that trims to "" is rejected with 400. */
  lemma UpdateNetworkEmptyName(s: CacheState, id: string, name: string, sites: seq<SiteRequest>, ids: nat -> string, k: int)
    requires FindDetail(s.details, id) != -1
    requires 0 <= k < |sites| && Trim(sites[k].site_name) == ""
    ensures UpdateNetwork(s, id, name, sites, ids).outcome == Rejected(Status(400, InvalidSiteName))
  {
    assert TrimmedNames(sites)[k] == "";
  }

  /** A submitted site name equal, once trimmed, to a trimmed existing site name is rejected with 400. */
  lemma UpdateNetworkDuplicateName(s: CacheState, id: string, name: string, sites: seq<SiteRequest>, ids: nat -> string,
                                   k: int, j: int)
    requires FindDetail(s.details, id) != -1
    requires 0 <= k < |sites| && 0 <= j < |s.details[FindDetail(s.details, id)].sites|
    requires Trim(sites[k].site_name) == Trim(s.details[FindDetail(s.details, id)].sites[j].site_name)
    ensures var r := UpdateNetwork(s, id, name, sites, ids);
      r.outcome.Rejected? && r.outcome.error.Status? && r.outcome.error.code == 400
  {
    var net := s.details[FindDetail(s.details, id)];
    var names := TrimmedNames(sites);
    var existing := TrimmedSiteNames(net.sites);
    assert names[k] == existing[j];
    var dups := Filter(names, (n: string) => n in existing);
    assert names[k] in dups;
  }

  /** A successful `updateNetwork` answers 304 with the cached network, changing nothing, exactly
      when the name is unchanged and no submitted site is new. */
  lemma UpdateNetworkUnchanged(s: CacheState, id: string, name: string, sites: seq<SiteRequest>, ids: nat -> string)
    requires UpdateNetwork(s, id, name, sites, ids).outcome.Fulfilled?
    ensures var r := UpdateNetwork(s, id, name, sites, ids); var net := s.details[FindDetail(s.details, id)];
      var added := if |sites| > 0 then NewSites(NewSiteRequests(net.sites, sites), ids) else [];
      (r.outcome.value.status == 304 <==> net.network_name == name && |added| == 0) &&
      (r.outcome.value.status == 304 ==> r.outcome.value.data == net && r.state == s)
  {
    var net := s.details[FindDetail(s.details, id)];
    var added := if |sites| > 0 then NewSites(NewSiteRequests(net.sites, sites), ids) else [];
    if net.network_name == name && |added| == 0 {
      assert UpdateNetwork(s, id, name, sites, ids) == Run(Fulfilled(NetworkResult(net, 304)), s);
    }
  }

  /** A successful `updateNetwork` that answers 200 keeps the existing sites, appends one empty
      site per submitted site with a new id, recounts, and leaves the cached details alone;
      every submitted site whose id the network lacks is among the new requests. */
  lemma UpdateNetworkAppends(s: CacheState, id: string, name: string, sites: seq<SiteRequest>, ids: nat -> string)
    requires UpdateNetwork(s, id, name, sites, ids).outcome.Fulfilled?
    requires UpdateNetwork(s, id, name, sites, ids).outcome.value.status == 200
    ensures var r := UpdateNetwork(s, id, name, sites, ids); var net := s.details[FindDetail(s.details, id)];
      var added := if |sites| > 0 then NewSites(NewSiteRequests(net.sites, sites), ids) else [];
      var p := r.outcome.value.data;
      p.sites == net.sites + added && p.network_name == name &&
      p.site_count == |net.sites| + |added| && p.ne_count == SiteElementCount(net.sites) &&
      r.state.details == s.details
    ensures var net := s.details[FindDetail(s.details, id)];
      forall k :: 0 <= k < |sites| && !HasSiteId(net.sites, sites[k].site_id) ==>
        sites[k] in NewSiteRequests(net.sites, sites)
  {
    var net := s.details[FindDetail(s.details, id)];
    var added := if |sites| > 0 then NewSites(NewSiteRequests(net.sites, sites), ids) else [];
    var newSites := net.sites + added;
    var n := net.(network_name := name, sites := newSites, site_count := |newSites|,
                  ne_count := SiteElementCount(newSites));
    assert UpdateNetwork(s, id, name, sites, ids).outcome.value.data == n;
    SiteElementCountAppend(net.sites, added);
    EmptySitesCount(added);
  }

  // ------------------------------------------------------------- deleteNetwork

  /** `deleteNetwork`: 404 when filtering removes nothing; otherwise the server's answer
      decides between the filtered list and a 500 rejection carrying the error's message. */
  function DeleteNetwork(details: seq<NetworkDetail>, id: string, reply: Reply<()>): (r: Outcome<seq<NetworkDetail>>)
    ensures r == Rejected(Status(404, "Network not found")) <==> forall k :: 0 <= k < |details| ==> details[k].network_id != id
    ensures r.Fulfilled? ==>
      (reply.Ok? && |r.value| < |details| &&
       (forall k :: 0 <= k < |r.value| ==> r.value[k] in details && r.value[k].network_id != id) &&
       (forall k :: 0 <= k < |details| && details[k].network_id != id ==> details[k] in r.value))
    ensures r.Fulfilled? ==> KeptInOrder(r.value, details, (n: NetworkDetail) => n.network_id != id)
    ensures (exists k :: 0 <= k < |details| && details[k].network_id == id) && reply.Failure? ==>
      r == Rejected(Status(500, reply.message))
  {
    var kept := Filter(details, (n: NetworkDetail) => n.network_id != id);
    FilterKeepsAll(details, (n: NetworkDetail) => n.network_id != id);
    FilterKeptInOrder(details, (n: NetworkDetail) => n.network_id != id);
    if |kept| == |details| then Rejected(Status(404, "Network not found"))
    else match reply
      case Ok(_) => Fulfilled(kept)
      case Failure(m) => Rejected(Status(500, m))
  }

  // ---------------------------------------------------------------- updateSite

  /** A payload of `updateSite`: the site and the status. */
  datatype SiteResult = SiteResult(data: Site, status: int)

  /** Whether a site's stored location differs from the submitted one. */
  predicate LocationDiffers(stored: Option<Location>, loc: Location) {
    stored.None? || stored.value.latitude != loc.latitude || stored.value.longitude != loc.longitude
  }

  /** The site `updateSite` stores: the first site with the id renamed and relocated, or a new
      site without elements (whose empty id is replaced by `newId`). */
  function EditedSite(sites: seq<Site>, site_id: string, site_name: string, loc: Location, newId: string): (t: Site)
    ensures t.site_name == Trim(site_name) && t.site_location == Some(loc)
    ensures FindSite(sites, site_id) != -1 ==>
      t.site_id == site_id && t.elements == sites[FindSite(sites, site_id)].elements
    ensures FindSite(sites, site_id) == -1 ==> t.site_id == (if site_id != "" then site_id else newId) && t.elements == []
  {
    var j := FindSite(sites, site_id);
    if j != -1 then sites[j].(site_name := Trim(site_name), site_location := Some(loc))
    else Site(if site_id != "" then site_id else newId, Trim(site_name), Some(loc), [])
  }

  /** The site list after `updateSite`: every site with the id replaced by the edited one, which
      is appended when no site has the id. */
  function EditedSites(sites: seq<Site>, site_id: string, site: Site): (r: seq<Site>)
    ensures |r| == if FindSite(sites, site_id) != -1 then |sites| else |sites| + 1
    ensures forall k :: 0 <= k < |sites| ==> r[k] == if sites[k].site_id == site_id then site else sites[k]
    ensures FindSite(sites, site_id) == -1 ==> r == sites + [site]
  {
    var replaced := seq(|sites|, k requires 0 <= k < |sites| => if sites[k].site_id == site_id then site else sites[k]);
    if FindSite(sites, site_id) != -1 then replaced
    else
      assert replaced == sites;
      replaced + [site]
  }

  /** `updateSite`: replaces every site with the id by the edited site, or appends a new site,
      then recounts; 304 with the stored site when name and location are unchanged. */
  function UpdateSite(s: CacheState, network_id: string, site_id: string, site_name: string,
                      loc: Location, newId: string): Run<SiteResult> {
    var i := FindDetail(s.details, network_id);
    if i == -1 then Run(Rejected(Status(404, "Network not found")), s)
    else
      var net := s.details[i];
      var j := FindSite(net.sites, site_id);
      if j != -1 && net.sites[j].site_name == site_name && !LocationDiffers(net.sites[j].site_location, loc) then
        Run(Fulfilled(SiteResult(net.sites[j], 304)), s)
      else
        var site := EditedSite(net.sites, site_id, site_name, loc, newId);
        var newSites := EditedSites(net.sites, site_id, site);
        var n := net.(sites := newSites, site_count := |newSites|, ne_count := SiteElementCount(newSites));
        Run(Fulfilled(SiteResult(site, 200)),
            CacheState(PushSummary(s.summary, SummaryOf(network_id, net.network_name, n.ne_count, n.site_count)),
                       PushDetail(s.details, n)))
  }

  /** `updateSite` on a cached network always succeeds, and answers 304 with the stored site,
      changing nothing, exactly when a site with the id has the same name and location. */
  lemma UpdateSiteUnchanged(s: CacheState, network_id: string, site_id: string, site_name: string, loc: Location, newId: string)
    requires FindDetail(s.details, network_id) != -1
    ensures var r := UpdateSite(s, network_id, site_id, site_name, loc, newId);
      var net := s.details[FindDetail(s.details, network_id)]; var j := FindSite(net.sites, site_id);
      r.outcome.Fulfilled? &&
      (r.outcome.value.status == 304 <==>
         j != -1 && net.sites[j].site_name == site_name && !LocationDiffers(net.sites[j].site_location, loc)) &&
      (r.outcome.value.status == 304 ==> r.state == s && r.outcome.value.data == net.sites[j])
  {
  }

  /** A 200 answer of `updateSite` stores the network, in its place, with the edited site list,
      recounted, and answers with the edited site. */
  lemma UpdateSiteStored(s: CacheState, network_id: string, site_id: string, site_name: string, loc: Location, newId: string)
    requires FindDetail(s.details, network_id) != -1
    requires UpdateSite(s, network_id, site_id, site_name, loc, newId).outcome.value.status == 200
    ensures var r := UpdateSite(s, network_id, site_id, site_name, loc, newId); var i := FindDetail(s.details, network_id);
      var net := s.details[i]; var site := EditedSite(net.sites, site_id, site_name, loc, newId);
      var newSites := EditedSites(net.sites, site_id, site);
      r.outcome.value.data == site &&
      |r.state.details| == |s.details| && r.state.details[i].network_id == network_id &&
      r.state.details[i].sites == newSites &&
      r.state.details[i].site_count == |newSites| && r.state.details[i].ne_count == SiteElementCount(newSites)
  {
    var i := FindDetail(s.details, network_id);
    var net := s.details[i];
    var newSites := EditedSites(net.sites, site_id, EditedSite(net.sites, site_id, site_name, loc, newId));
    UpsertPlaces(s.details, net.(sites := newSites, site_count := |newSites|, ne_count := SiteElementCount(newSites)));
  }

  /** A 200 answer of `updateSite` for an existing site replaces it in place: the list keeps its
      length, the site keeps its elements, and sites with other ids are unchanged. */
  lemma UpdateSiteReplaces(s: CacheState, network_id: string, site_id: string, site_name: string, loc: Location, newId: string)
    requires FindDetail(s.details, network_id) != -1
    requires FindSite(s.details[FindDetail(s.details, network_id)].sites, site_id) != -1
    requires UpdateSite(s, network_id, site_id, site_name, loc, newId).outcome.value.status == 200
    ensures var r := UpdateSite(s, network_id, site_id, site_name, loc, newId); var i := FindDetail(s.details, network_id);
      var net := s.details[i]; var j := FindSite(net.sites, site_id); var u := r.state.details[i];
      |r.state.details| == |s.details| && u.network_id == network_id &&
      r.outcome.value.data.site_name == Trim(site_name) && r.outcome.value.data.site_location == Some(loc) &&
      |u.sites| == |net.sites| && u.sites[j] == r.outcome.value.data &&
      r.outcome.value.data.elements == net.sites[j].elements &&
      (forall k :: 0 <= k < |net.sites| && net.sites[k].site_id != site_id ==> u.sites[k] == net.sites[k]) &&
      u.site_count == |u.sites| && u.ne_count == SiteElementCount(u.sites)
  {
    UpdateSiteStored(s, network_id, site_id, site_name, loc, newId);
  }

  /** A 200 answer of `updateSite` for an unknown site id appends one new site without elements. */
  lemma UpdateSiteAppends(s: CacheState, network_id: string, site_id: string, site_name: string, loc: Location, newId: string)
    requires FindDetail(s.details, network_id) != -1
    requires FindSite(s.details[FindDetail(s.details, network_id)].sites, site_id) == -1
    ensures var r := UpdateSite(s, network_id, site_id, site_name, loc, newId); var i := FindDetail(s.details, network_id);
      var net := s.details[i]; var u := r.state.details[i];
      r.outcome.value.status == 200 &&
      |r.state.details| == |s.details| && u.network_id == network_id &&
      r.outcome.value.data == Site(if site_id != "" then site_id else newId, Trim(site_name), Some(loc), []) &&
      u.sites == net.sites + [r.outcome.value.data] &&
      u.site_count == |net.sites| + 1 && u.ne_count == SiteElementCount(u.sites)
  {
    UpdateSiteStored(s, network_id, site_id, site_name, loc, newId);
  }

  // ---------------------------------------------------------------- deleteSite

  predicate SiteInNetwork(n: NetworkDetail, site_id: string) {
    HasSiteId(n.sites, site_id)
  }

  /** `deleteSite`: removes every site with the id from the first network holding one, recounts,
      and stores the network. */
  function DeleteSite(s: CacheState, site_id: string): Run<NetworkResult> {
    var i := FindIndex(s.details, (n: NetworkDetail) => SiteInNetwork(n, site_id));
    if i == -1 then Run(Rejected(Status(404, "Network not found for the given site")), s)
    else
      var net := s.details[i];
      var kept := Filter(net.sites, (t: Site) => t.site_id != site_id);
      if |kept| == |net.sites| then Run(Rejected(Status(404, "Site not found")), s)
      else
        var n := net.(sites := kept, site_count := |kept|, ne_count := SiteElementCount(kept));
        Run(Fulfilled(NetworkResult(n, 200)),
            CacheState(PushSummary(s.summary, SummaryOf(n.network_id, n.network_name, n.ne_count, |kept|)),
                       PushDetail(s.details, n)))
  }

  /** `deleteSite` fails with 404 exactly when no network has a site with the id; the second
      404 cannot happen. On success the network loses every site with the id, keeps the others
      and records the new site count. */
  lemma DeleteSiteOutcome(s: CacheState, site_id: string)
    ensures var r := DeleteSite(s, site_id);
      (r.outcome.Rejected? <==> forall k :: 0 <= k < |s.details| ==> !SiteInNetwork(s.details[k], site_id)) &&
      (r.outcome.Rejected? ==> r.outcome.error == Status(404, "Network not found for the given site") && r.state == s)
    ensures var r := DeleteSite(s, site_id);
      r.outcome.Fulfilled? ==>
        var n := r.outcome.value.data;
        var net := s.details[FindIndex(s.details, (m: NetworkDetail) => SiteInNetwork(m, site_id))];
        n.network_id == net.network_id && !HasSiteId(n.sites, site_id) && |n.sites| < |net.sites| &&
        n.site_count == |n.sites| &&
        (forall k :: 0 <= k < |net.sites| && net.sites[k].site_id != site_id ==> net.sites[k] in n.sites) &&
        r.state.details == Upsert(s.details, n)
    ensures var r := DeleteSite(s, site_id);
      r.outcome.Fulfilled? ==>
        KeptInOrder(r.outcome.value.data.sites,
                    s.details[FindIndex(s.details, (m: NetworkDetail) => SiteInNetwork(m, site_id))].sites,
                    (t: Site) => t.site_id != site_id)
  {
    var i := FindIndex(s.details, (n: NetworkDetail) => SiteInNetwork(n, site_id));
    if i != -1 {
      var net := s.details[i];
      FilterKeepsAll(net.sites, (t: Site) => t.site_id != site_id);
      FilterKeptInOrder(net.sites, (t: Site) => t.site_id != site_id);
      var kept := Filter(net.sites, (t: Site) => t.site_id != site_id);
      assert |kept| < |net.sites|;
    }
  }

  // ------------------------------------------------------------ moveDeviceToSite

  /** A payload of `moveDeviceToSite`. */
  datatype MoveResult = MoveResult(network_id: string, ne_name: string, target_site_id: Option<string>)

  /** The network after moving `ne_name`: `current`/`target` of `None` mean the network root. */
  function MovedNetwork(net: NetworkDetail, ne_name: string, current: Option<string>, target: Option<string>): Outcome<NetworkDetail> {
    var taken: Outcome<(Record, seq<Site>)> :=
      if current.None? then
        (if ne_name in net.elements then Fulfilled((net.elements[ne_name], net.sites))
         else Rejected(Message("Device not found in network")))
      else
        var ci := FindSite(net.sites, current.value);
        if ci == -1 then Rejected(Message("Current site not found"))
        else
          var di := FindElement(net.sites[ci].elements, ne_name);
          if di == -1 then Rejected(Message("Device not found in site"))
          else
            var src := net.sites[ci];
            Fulfilled((src.elements[di],
                       net.sites[ci := src.(elements := Filter(src.elements, (e: Record) => !Named(e, ne_name)))]));
    match taken
    case Rejected(e) => Rejected(e)
    case Fulfilled(pair) =>
      var (device, sites) := pair;
      if target.None? then Fulfilled(net.(elements := net.elements[ne_name := device], sites := sites))
      else
        var ti := FindSite(net.sites, target.value);
        if ti == -1 then Rejected(Message("Target site not found"))
        else Fulfilled(net.(sites := sites[ti := sites[ti].(elements := sites[ti].elements + [device])]))
  }

  /** `moveDeviceToSite`. */
  function MoveDeviceToSite(s: CacheState, network_id: string, ne_name: string,
                            current: Option<string>, target: Option<string>): Run<MoveResult> {
    var i := FindDetail(s.details, network_id);
    if i == -1 then Run(Rejected(Message("Network not found")), s)
    else
      match MovedNetwork(s.details[i], ne_name, current, target)
      case Rejected(e) => Run(Rejected(e), s)
      case Fulfilled(n) =>
        Run(Fulfilled(MoveResult(network_id, ne_name, target)),
            CacheState(PushSummary(s.summary, SummaryOf(n.network_id, n.network_name, n.ne_count, |n.sites|)),
                       PushDetail(s.details, n)))
  }

  /** The move fails exactly when the network, the source site, the device or the target site
      is missing, and then changes nothing. */
  lemma MoveRejections(s: CacheState, network_id: string, ne_name: string, a: string, b: string)
    ensures var r := MoveDeviceToSite(s, network_id, ne_name, Some(a), Some(b));
      var i := FindDetail(s.details, network_id);
      (r.outcome.Rejected? <==>
        i == -1 || FindSite(s.details[i].sites, a) == -1 ||
        FindElement(s.details[i].sites[FindSite(s.details[i].sites, a)].elements, ne_name) == -1 ||
        FindSite(s.details[i].sites, b) == -1) &&
      (r.outcome.Rejected? ==> r.state == s)
  {
  }

  /** Moving between two sites removes every element with the name from the source site and
      appends the device at the end of the target site (the source site when both are the same);
      no other site and no root element changes. */
  lemma MoveBetweenSites(net: NetworkDetail, ne_name: string, a: string, b: string)
    requires MovedNetwork(net, ne_name, Some(a), Some(b)).Fulfilled?
    ensures var n := MovedNetwork(net, ne_name, Some(a), Some(b)).value;
      var ci := FindSite(net.sites, a); var ti := FindSite(net.sites, b);
      var src := net.sites[ci]; var device := src.elements[FindElement(src.elements, ne_name)];
      var filtered := Filter(src.elements, (e: Record) => !Named(e, ne_name));
      |n.sites| == |net.sites| && n.elements == net.elements &&
      (ci != ti ==> n.sites[ci].elements == filtered && n.sites[ti].elements == net.sites[ti].elements + [device]) &&
      (ci == ti ==> n.sites[ci].elements == filtered + [device]) &&
      (forall k :: 0 <= k < |net.sites| && k != ci && k != ti ==> n.sites[k] == net.sites[k]) &&
      (forall k :: 0 <= k < |net.sites| ==> n.sites[k].site_id == net.sites[k].site_id)
  {
  }

  /** The total number of site elements drops by the number of elements named like the device
      in the source site and grows by one; with a unique name it is preserved. */
  lemma MovePreservesTotal(net: NetworkDetail, ne_name: string, a: string, b: string)
    requires MovedNetwork(net, ne_name, Some(a), Some(b)).Fulfilled?
    ensures var n := MovedNetwork(net, ne_name, Some(a), Some(b)).value;
      var src := net.sites[FindSite(net.sites, a)];
      SiteElementCount(n.sites) == SiteElementCount(net.sites) - CountNamed(src.elements, ne_name) + 1
    ensures CountNamed(net.sites[FindSite(net.sites, a)].elements, ne_name) == 1 ==>
      SiteElementCount(MovedNetwork(net, ne_name, Some(a), Some(b)).value.sites) == SiteElementCount(net.sites)
  {
    var ci := FindSite(net.sites, a);
    var ti := FindSite(net.sites, b);
    var src := net.sites[ci];
    var device := src.elements[FindElement(src.elements, ne_name)];
    var filtered := Filter(src.elements, (e: Record) => !Named(e, ne_name));
    FilterNamedLength(src.elements, ne_name);
    var mid := net.sites[ci := src.(elements := filtered)];
    SiteElementCountUpdate(net.sites, ci, src.(elements := filtered));
    SiteElementCountUpdate(mid, ti, mid[ti].(elements := mid[ti].elements + [device]));
  }

  /** Moving a root element to a site copies it into the site and leaves it in the root,
      so the network then holds it twice. */
  lemma MoveFromRootKeepsRoot(net: NetworkDetail, ne_name: string, b: string)
    requires MovedNetwork(net, ne_name, None, Some(b)).Fulfilled?
    ensures var n := MovedNetwork(net, ne_name, None, Some(b)).value; var ti := FindSite(net.sites, b);
      n.elements == net.elements && ne_name in n.elements &&
      n.sites[ti].elements == net.sites[ti].elements + [net.elements[ne_name]] &&
      NetworkNeCount(n) == NetworkNeCount(net) + 1
  {
    var ti := FindSite(net.sites, b);
    var device := net.elements[ne_name];
    SiteElementCountUpdate(net.sites, ti, net.sites[ti].(elements := net.sites[ti].elements + [device]));
  }

  // ----------------------------------------------------------- toggleNetworkLock

  /** A payload of `toggleNetworkLock`: the network, and whether it asks for the network to be
      saved to the server (it does when it locks). */
  datatype ToggleResult = ToggleResult(detail: NetworkDetail, saves: bool)

  function FindSummary(s: seq<NetworkSummary>, id: string): int {
    NetworksSlice.FirstWithId(s, id)
  }

  /** `toggleNetworkLock` as written: the flipped summary goes through the summary merge,
      which keeps the stored `isLocked`. */
  function ToggleNetworkLockAsWritten(s: CacheState, id: string): Run<ToggleResult> {
    var si := FindSummary(s.summary.networks, id);
    var di := FindDetail(s.details, id);
    if si == -1 || di == -1 then Run(Rejected(Thrown("Network with id " + id + " not found")), s)
    else
      var cur := s.summary.networks[si].isLocked;
      var d := s.details[di].(isLocked := !cur);
      Run(Fulfilled(ToggleResult(d, !cur)),
          CacheState(PushSummary(s.summary, s.summary.networks[si].(isLocked := !cur)), PushDetail(s.details, d)))
  }

  /** The summary lists with the lock state of every entry with the id set. */
  function SetLock(nets: seq<NetworkSummary>, id: string, locked: bool): (r: seq<NetworkSummary>)
    ensures |r| == |nets|
    ensures forall k :: 0 <= k < |r| ==> r[k] == (if nets[k].network_id == id then nets[k].(isLocked := locked) else nets[k])
  {
    seq(|nets|, k requires 0 <= k < |nets| => if nets[k].network_id == id then nets[k].(isLocked := locked) else nets[k])
  }

  /** `toggleNetworkLock` with the lock state written into the summary entry as well. */
  function ToggleNetworkLock(s: CacheState, id: string): Run<ToggleResult> {
    var si := FindSummary(s.summary.networks, id);
    var di := FindDetail(s.details, id);
    if si == -1 || di == -1 then Run(Rejected(Thrown("Network with id " + id + " not found")), s)
    else
      var cur := s.summary.networks[si].isLocked;
      var d := s.details[di].(isLocked := !cur);
      var pushed := PushSummary(s.summary, s.summary.networks[si].(isLocked := !cur));
      Run(Fulfilled(ToggleResult(d, !cur)),
          CacheState(pushed.(networks := SetLock(pushed.networks, id, !cur)), PushDetail(s.details, d)))
  }

  /** The state after a toggle and its `fulfilled` reducer (an upsert of the returned network). */
  function AfterToggle(run: Run<ToggleResult>): CacheState {
    if run.outcome.Fulfilled? then run.state.(details := Upsert(run.state.details, run.outcome.value.detail))
    else run.state
  }

  /** The lock state of the first summary with the id. */
  function SummaryLock(s: CacheState, id: string): bool
    requires FindSummary(s.summary.networks, id) != -1
  {
    s.summary.networks[FindSummary(s.summary.networks, id)].isLocked
  }

  function DetailLock(s: CacheState, id: string): bool
    requires FindDetail(s.details, id) != -1
  {
    s.details[FindDetail(s.details, id)].isLocked
  }

  /** Merging one entry keeps the order and the ids of the summary list when the id is present. */
  lemma PushSummaryKeepsIds(s: SummaryData, e: NetworkSummary)
    requires NetworksSlice.HasId(s.networks, e.network_id)
    ensures var r := PushSummary(s, e).networks;
      |r| == |s.networks| &&
      forall k :: 0 <= k < |r| ==> r[k].network_id == s.networks[k].network_id && r[k].isLocked == s.networks[k].isLocked
  {
    var m := NetworksSlice.MergeExisting(s.networks, [e]);
    NetworksSlice.MergeExistingKeepsPlaces(s.networks, [e]);
    var w :| 0 <= w < |s.networks| && s.networks[w].network_id == e.network_id;
    assert m[w].network_id == e.network_id;
    assert [e][0] == e && [e][1..] == [];
    assert NetworksSlice.AppendMissing(m, [e]) == NetworksSlice.AppendMissing(NetworksSlice.PushIfNew(m, e), []);
  }

  lemma UpsertFind(details: seq<NetworkDetail>, n: NetworkDetail)
    requires FindDetail(details, n.network_id) != -1
    ensures FindDetail(Upsert(details, n), n.network_id) == FindDetail(details, n.network_id)
    ensures Upsert(details, n) == details[FindDetail(details, n.network_id) := n]
  {
    UpsertPlaces(details, n);
  }

  /** As written, the summary never records the new lock state, so a locked network can never
      be unlocked: from any state, two toggles leave the detail locked. */
  lemma ToggleNeverUnlocks(s: CacheState, id: string)
    requires FindSummary(s.summary.networks, id) != -1 && FindDetail(s.details, id) != -1
    requires !SummaryLock(s, id)
    ensures var s1 := AfterToggle(ToggleNetworkLockAsWritten(s, id));
      FindSummary(s1.summary.networks, id) != -1 && FindDetail(s1.details, id) != -1 &&
      !SummaryLock(s1, id) && DetailLock(s1, id)
    ensures var s2 := AfterToggle(ToggleNetworkLockAsWritten(AfterToggle(ToggleNetworkLockAsWritten(s, id)), id));
      FindSummary(s2.summary.networks, id) != -1 && FindDetail(s2.details, id) != -1 && DetailLock(s2, id)
  {
    var s1 := AfterToggle(ToggleNetworkLockAsWritten(s, id));
    ToggleAsWrittenStep(s, id);
    ToggleAsWrittenStep(s1, id);
  }

  /** Two summary lists with the same ids in the same places find an id at the same place. */
  lemma {:induction false} SameIdsSameFind(a: seq<NetworkSummary>, b: seq<NetworkSummary>, id: string)
    requires |a| == |b| && forall k :: 0 <= k < |a| ==> a[k].network_id == b[k].network_id
    ensures FindSummary(a, id) == FindSummary(b, id)
  {
    var i := FindSummary(a, id);
    if i == -1 {
      assert !NetworksSlice.HasId(b, id);
    } else {
      assert b[i].network_id == id;
    }
  }

  /** The cache after an accepted toggle: the summary merge of `e` and two upserts of `d`. */
  lemma ToggleState(run: Run<ToggleResult>, s: CacheState, summary: SummaryData, d: NetworkDetail)
    requires run == Run(Fulfilled(ToggleResult(d, d.isLocked)), CacheState(summary, PushDetail(s.details, d)))
    requires FindDetail(s.details, d.network_id) != -1
    ensures AfterToggle(run) == CacheState(summary, s.details[FindDetail(s.details, d.network_id) := d])
    ensures FindDetail(AfterToggle(run).details, d.network_id) == FindDetail(s.details, d.network_id)
  {
    UpsertFind(s.details, d);
    UpsertFind(Upsert(s.details, d), d);
  }

  lemma ToggleAsWrittenStep(s: CacheState, id: string)
    requires FindSummary(s.summary.networks, id) != -1 && FindDetail(s.details, id) != -1
    ensures var s1 := AfterToggle(ToggleNetworkLockAsWritten(s, id));
      FindSummary(s1.summary.networks, id) == FindSummary(s.summary.networks, id) &&
      SummaryLock(s1, id) == SummaryLock(s, id)
    ensures var s1 := AfterToggle(ToggleNetworkLockAsWritten(s, id));
      FindDetail(s1.details, id) == FindDetail(s.details, id) && DetailLock(s1, id) == !SummaryLock(s, id)
  {
    var si := FindSummary(s.summary.networks, id);
    var di := FindDetail(s.details, id);
    var cur := s.summary.networks[si].isLocked;
    var e := s.summary.networks[si].(isLocked := !cur);
    var d := s.details[di].(isLocked := !cur);
    assert NetworksSlice.HasId(s.summary.networks, id);
    PushSummaryKeepsIds(s.summary, e);
    var summary := PushSummary(s.summary, e);
    SameIdsSameFind(summary.networks, s.summary.networks, id);
    ToggleState(ToggleNetworkLockAsWritten(s, id), s, summary, d);
  }

  /** With the correction, a toggle flips both lock states and two toggles restore them. */
  lemma ToggleFlips(s: CacheState, id: string)
    requires FindSummary(s.summary.networks, id) != -1 && FindDetail(s.details, id) != -1
    ensures var s1 := AfterToggle(ToggleNetworkLock(s, id));
      FindSummary(s1.summary.networks, id) == FindSummary(s.summary.networks, id) &&
      SummaryLock(s1, id) == !SummaryLock(s, id)
    ensures var s1 := AfterToggle(ToggleNetworkLock(s, id));
      FindDetail(s1.details, id) == FindDetail(s.details, id) && DetailLock(s1, id) == !SummaryLock(s, id)
  {
    var si := FindSummary(s.summary.networks, id);
    var di := FindDetail(s.details, id);
    var cur := s.summary.networks[si].isLocked;
    var e := s.summary.networks[si].(isLocked := !cur);
    var d := s.details[di].(isLocked := !cur);
    assert NetworksSlice.HasId(s.summary.networks, id);
    PushSummaryKeepsIds(s.summary, e);
    var pushed := PushSummary(s.summary, e);
    var summary := pushed.(networks := SetLock(pushed.networks, id, !cur));
    SameIdsSameFind(summary.networks, s.summary.networks, id);
    ToggleState(ToggleNetworkLock(s, id), s, summary, d);
  }

  lemma ToggleTwiceRestores(s: CacheState, id: string)
    requires FindSummary(s.summary.networks, id) != -1 && FindDetail(s.details, id) != -1
    requires SummaryLock(s, id) == DetailLock(s, id)
    ensures var s2 := AfterToggle(ToggleNetworkLock(AfterToggle(ToggleNetworkLock(s, id)), id));
      FindSummary(s2.summary.networks, id) != -1 && FindDetail(s2.details, id) != -1 &&
      SummaryLock(s2, id) == SummaryLock(s, id) && DetailLock(s2, id) == DetailLock(s, id)
  {
    ToggleFlips(s, id);
    ToggleFlips(AfterToggle(ToggleNetworkLock(s, id)), id);
  }

  /** A toggle fails, changing nothing, unless the network is in both caches; it asks for a
      save exactly when it locks. */
  lemma ToggleOutcome(s: CacheState, id: string)
    ensures var r := ToggleNetworkLock(s, id);
      (r.outcome.Rejected? <==> FindSummary(s.summary.networks, id) == -1 || FindDetail(s.details, id) == -1) &&
      (r.outcome.Rejected? ==> r.state == s) &&
      (r.outcome.Fulfilled? ==>
        (r.outcome.value.saves == !SummaryLock(s, id) && r.outcome.value.detail.isLocked == r.outcome.value.saves))
  {
  }

  // ------------------------------------------------------------------- reducers

  /** The slice state and its extra reducers. */
  class NetworkStore {
    var loading: bool
    var error: Option<string>
    var networkDetails: seq<NetworkDetail>

    constructor ()
      ensures loading && error == None && networkDetails == []
    {
      loading := true;
      error := None;
      networkDetails := [];
    }

    /** The `pending` reducers: only `loading` is set. */
    method Pending()
      modifies this
      ensures loading && error == old(error) && networkDetails == old(networkDetails)
    {
      loading := true;
    }

    /** The `rejected` reducers that report `action.error.message`. */
    method Rejected(e: Rejection)
      modifies this
      ensures !loading && error == ErrorMessage(e) && networkDetails == old(networkDetails)
    {
      loading := false;
      error := ErrorMessage(e);
    }

    /** `updateNetwork.rejected` reports the message of the rejection value. */
    method UpdateNetworkRejected(e: Rejection)
      requires e.Status?
      modifies this
      ensures !loading && error == Some(e.message) && networkDetails == old(networkDetails)
    {
      loading := false;
      error := Some(e.message);
    }

    /** `getNetwork.fulfilled`: an upsert of the payload (the counts it computes are not stored). */
    method GetNetworkFulfilled(p: NetworkDetail)
      modifies this
      ensures networkDetails == Upsert(old(networkDetails), p) && !loading && error == None
    {
      var i := FindDetail(networkDetails, p.network_id);
      if i != -1 {
        networkDetails := networkDetails[i := p];
      } else {
        networkDetails := networkDetails + [p];
      }
      loading := false;
      error := None;
    }

    /** `addNetwork.fulfilled`: the payload is pushed, with recounted totals, whatever its id. */
    method AddNetworkFulfilled(p: NetworkDetail)
      modifies this
      ensures networkDetails == old(networkDetails) + [p.(ne_count := SiteElementCount(p.sites), site_count := |p.sites|)]
      ensures !loading && error == None
    {
      networkDetails := networkDetails + [p.(ne_count := SiteElementCount(p.sites), site_count := |p.sites|)];
      loading := false;
      error := None;
    }

    /** `updateNetwork.fulfilled`: on 200 the network with the id is replaced, with recounted totals. */
    method UpdateNetworkFulfilled(p: NetworkResult)
      modifies this
      ensures var i := FindDetail(old(networkDetails), p.data.network_id);
        networkDetails == (if p.status == 200 && i != -1
          then old(networkDetails)[i := p.data.(site_count := |p.data.sites|, ne_count := SiteElementCount(p.data.sites))]
          else old(networkDetails))
      ensures !loading && error == None
    {
      if p.status == 200 {
        var i := FindDetail(networkDetails, p.data.network_id);
        if i != -1 {
          networkDetails := networkDetails[i := p.data.(site_count := |p.data.sites|, ne_count := SiteElementCount(p.data.sites))];
        }
      }
      loading := false;
      error := None;
    }

    /** `deleteNetwork.fulfilled`. */
    method DeleteNetworkFulfilled(updated: seq<NetworkDetail>)
      modifies this
      ensures networkDetails == updated && !loading && error == None
    {
      networkDetails := updated;
      loading := false;
      error := None;
    }

    /** `updateSite.fulfilled` looks the payload's site up as a network and finds nothing, and
        `moveDeviceToSite.fulfilled` stores nothing: only the flags change. */
    method FlagsFulfilled()
      modifies this
      ensures networkDetails == old(networkDetails) && !loading && error == None
    {
      loading := false;
      error := None;
    }

    /** `deleteSite.fulfilled`: on 200 the network with the id is replaced. */
    method DeleteSiteFulfilled(p: NetworkResult)
      modifies this
      ensures var i := FindDetail(old(networkDetails), p.data.network_id);
        networkDetails == (if p.status == 200 && i != -1 then old(networkDetails)[i := p.data] else old(networkDetails))
      ensures !loading && error == None
    {
      if p.status == 200 {
        var i := FindDetail(networkDetails, p.data.network_id);
        if i != -1 {
          networkDetails := networkDetails[i := p.data];
        }
      }
      loading := false;
      error := None;
    }

    /** `toggleNetworkLock.fulfilled`: an upsert; the flags are not touched. */
    method ToggleNetworkLockFulfilled(p: ToggleResult)
      modifies this
      ensures networkDetails == Upsert(old(networkDetails), p.detail)
      ensures loading == old(loading) && error == old(error)
    {
      var i := FindDetail(networkDetails, p.detail.network_id);
      if i != -1 {
        networkDetails := networkDetails[i := p.detail];
      } else {
        networkDetails := networkDetails + [p.detail];
      }
    }

    /** `updateNetworkDetails.fulfilled`. */
    method UpdateNetworkDetailsFulfilled(p: DetailsPayload)
      modifies this
      ensures networkDetails == p.updatedNetworkDetails
      ensures loading == old(loading) && error == old(error)
    {
      networkDetails := p.updatedNetworkDetails;
    }

    /** Dispatching `updateSite` against both slices. */
    method DispatchUpdateSite(networks: NetworksSlice.NetworksStore, network_id: string, site_id: string,
                              site_name: string, loc: Location, newId: string)
      modifies this, networks
      ensures var r := UpdateSite(CacheState(old(networks.data), old(networkDetails)), network_id, site_id, site_name, loc, newId);
        networks.data == r.state.summary && networkDetails == r.state.details && !loading &&
        error == (if r.outcome.Fulfilled? then None else ErrorMessage(r.outcome.error))
      ensures networks.loading == old(networks.loading) && networks.error == old(networks.error)
    {
      Pending();
      var r := UpdateSite(CacheState(networks.data, networkDetails), network_id, site_id, site_name, loc, newId);
      networks.data := r.state.summary;
      networkDetails := r.state.details;
      match r.outcome
      case Fulfilled(_) => FlagsFulfilled();
      case Rejected(e) => Rejected(e);
    }

    /** Dispatching `deleteSite` against both slices. */
    method DispatchDeleteSite(networks: NetworksSlice.NetworksStore, site_id: string)
      modifies this, networks
      ensures var r := DeleteSite(CacheState(old(networks.data), old(networkDetails)), site_id);
        networks.data == r.state.summary && networkDetails == r.state.details && !loading &&
        error == (if r.outcome.Fulfilled? then None else ErrorMessage(r.outcome.error))
      ensures networks.loading == old(networks.loading) && networks.error == old(networks.error)
    {
      Pending();
      var r := DeleteSite(CacheState(networks.data, networkDetails), site_id);
      networks.data := r.state.summary;
      networkDetails := r.state.details;
      match r.outcome
      case Fulfilled(p) =>
        DeleteSiteStoredTwice(CacheState(old(networks.data), old(networkDetails)), site_id);
        DeleteSiteFulfilled(p);
      case Rejected(e) => Rejected(e);
    }

    /** Dispatching `moveDeviceToSite` against both slices. */
    method DispatchMoveDeviceToSite(networks: NetworksSlice.NetworksStore, network_id: string, ne_name: string,
                                    current: Option<string>, target: Option<string>)
      modifies this, networks
      ensures var r := MoveDeviceToSite(CacheState(old(networks.data), old(networkDetails)), network_id, ne_name, current, target);
        networks.data == r.state.summary && networkDetails == r.state.details && !loading &&
        error == (if r.outcome.Fulfilled? then None else ErrorMessage(r.outcome.error))
      ensures networks.loading == old(networks.loading) && networks.error == old(networks.error)
    {
      Pending();
      var r := MoveDeviceToSite(CacheState(networks.data, networkDetails), network_id, ne_name, current, target);
      networks.data := r.state.summary;
      networkDetails := r.state.details;
      match r.outcome
      case Fulfilled(_) => FlagsFulfilled();
      case Rejected(e) => Rejected(e);
    }

    /** Dispatching `toggleNetworkLock` against both slices; a failed toggle has no reducer. */
    method DispatchToggleNetworkLock(networks: NetworksSlice.NetworksStore, id: string)
      modifies this, networks
      ensures var s1 := AfterToggle(ToggleNetworkLock(CacheState(old(networks.data), old(networkDetails)), id));
        networks.data == s1.summary && networkDetails == s1.details
      ensures loading == old(loading) && error == old(error)
      ensures networks.loading == old(networks.loading) && networks.error == old(networks.error)
    {
      var r := ToggleNetworkLock(CacheState(networks.data, networkDetails), id);
      networks.data := r.state.summary;
      networkDetails := r.state.details;
      if r.outcome.Fulfilled? {
        ToggleNetworkLockFulfilled(r.outcome.value);
      }
    }
  }

  /** The network `deleteSite` stores through the inner dispatch is found again by its reducer,
      which stores it a second time to the same effect. */
  lemma DeleteSiteStoredTwice(s: CacheState, site_id: string)
    requires DeleteSite(s, site_id).outcome.Fulfilled?
    ensures var r := DeleteSite(s, site_id); var n := r.outcome.value.data;
      r.outcome.value.status == 200 && FindDetail(r.state.details, n.network_id) != -1 &&
      r.state.details[FindDetail(r.state.details, n.network_id) := n] == r.state.details
  {
    var r := DeleteSite(s, site_id);
    var n := r.outcome.value.data;
    var i := FindIndex(s.details, (m: NetworkDetail) => SiteInNetwork(m, site_id));
    assert s.details[i].network_id == n.network_id;
    UpsertFind(s.details, n);
    UpsertFind(Upsert(s.details, n), n);
  }
}
