/** The records held by the three client-side caches: the networks summary list,
    the network details list and the element (device) records inside a network. */
module Interface {
  import opened Common

  /** One row of the networks summary list. `isLocked` is absent on rows that never
      carried it; JavaScript's `!undefined` and `!false` agree, so absent is `false` here. */
  datatype NetworkSummary = NetworkSummary(
    network_id: string,
    network_name: string,
    ne_count: int,
    site_count: int,
    isLocked: bool)

  /** `state.networks.data`: the summary list and its totals; `None` is `undefined`. */
  datatype SummaryData = SummaryData(
    networks: seq<NetworkSummary>,
    total_nes: Option<int>,
    total_networks: Option<int>,
    total_online_networks: Option<int>,
    total_online_nes: Option<int>,
    total_online_sites: Option<int>,
    total_sites: Option<int>)

  datatype Location = Location(latitude: string, longitude: string)

  /** A site of a cached network; its `elements` list holds element records. */
  datatype Site = Site(
    site_id: string,
    site_name: string,
    site_location: Option<Location>,
    elements: seq<Record>)

  /** The topology shown for a network: lists of node and edge values. */
  datatype Topology = Topology(nodes: seq<Value>, edges: seq<Value>)

  /** One entry of `state.network.networkDetails`. `elements` are the network's root
      elements keyed by `ne_name`; `devices` is read only by the summary synchronisation. */
  datatype NetworkDetail = NetworkDetail(
    network_id: string,
    network_name: string,
    sites: seq<Site>,
    elements: map<string, Record>,
    devices: map<string, Record>,
    topology: Topology,
    isLocked: bool,
    site_count: int,
    ne_count: int)

  /** The two reconciled caches: the summary slice's data and the details slice's list. */
  datatype CacheState = CacheState(summary: SummaryData, details: seq<NetworkDetail>)

  /** Number of elements over all sites of a list (`sites.reduce((acc, s) => acc + s.elements.length, 0)`). */
  function SiteElementCount(sites: seq<Site>): nat {
    if |sites| == 0 then 0 else |sites[0].elements| + SiteElementCount(sites[1..])
  }

  lemma {:induction false} SiteElementCountAppend(a: seq<Site>, b: seq<Site>)
    ensures SiteElementCount(a + b) == SiteElementCount(a) + SiteElementCount(b)
  {
    if |a| > 0 {
      assert (a + b)[1..] == a[1..] + b;
      SiteElementCountAppend(a[1..], b);
    } else {
      assert a + b == b;
    }
  }

  /** Replacing one site changes the element count by the difference of the two sites' lists. */
  lemma {:induction false} SiteElementCountUpdate(sites: seq<Site>, i: nat, s: Site)
    requires i < |sites|
    ensures SiteElementCount(sites[i := s]) == SiteElementCount(sites) - |sites[i].elements| + |s.elements|
  {
    if i == 0 {
      assert sites[i := s][1..] == sites[1..];
    } else {
      assert sites[i := s][1..] == sites[1..][i - 1 := s];
      SiteElementCountUpdate(sites[1..], i - 1, s);
    }
  }
}
