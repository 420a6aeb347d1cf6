/** The element (device) slice: backend device records become element records of a cached
    network, and the slice keeps the outputs of configuration queries and CLI commands. */
module ElementSlice {
  import opened Common
  import opened Interface
  import NetworksSlice
  import opened NetworkSlice

  /** `value || fallback` for a message the server may leave out ("" when absent). */
  function OrDefault(m: string, fallback: string): string {
    if m == "" then fallback else m
  }

  /** The value of an element thunk's `catch`: the server's message, or a generic one. */
  function CaughtMessage(m: string): Rejection {
    Message(OrDefault(m, "An unknown error occurred"))
  }

  // ------------------------------------------------------------ field mapping

  const ElementKeys: set<string> := {"ne_name", "ne_type", "ne_make", "ne_ip", "ne_id", "network_name",
    "ssh_username", "ssh_password", "ssh_secret", "gne", "session_log", "verbose", "global_delay_factor"}

  /** The element record built from a backend device record, with a fresh `ne_id`. */
  function MapDevice(device: Record, ne_id: string): (e: Record)
    ensures "network_name" in e && e["network_name"] == Prop(device, "network_name")
  {
    map["ne_name" := Prop(device, "device_name"),
        "ne_type" := Prop(device, "ne_type"),
        "ne_make" := Prop(device, "device_type"),
        "ne_ip" := Prop(device, "ip"),
        "ne_id" := VStr(ne_id),
        "network_name" := Prop(device, "network_name"),
        "ssh_username" := Prop(device, "ssh_username"),
        "ssh_password" := Prop(device, "ssh_password"),
        "ssh_secret" := Or(Prop(device, "ssh_secret"), VStr("")),
        "gne" := Prop(device, "gne"),
        "session_log" := Or(Prop(device, "session_log"), VStr("")),
        "verbose" := Or(Prop(device, "verbose"), VBool(false)),
        "global_delay_factor" := Or(Prop(device, "global_delay_factor"), VNum(1))]
  }

  /** The mapped record has exactly the thirteen element keys. */
  lemma MapDeviceKeys(device: Record, ne_id: string)
    ensures MapDevice(device, ne_id).Keys == ElementKeys
  {
    var e := MapDevice(device, ne_id);
    assert e.Keys <= ElementKeys;
    assert ElementKeys <= e.Keys;
  }

  /** The renamed backend fields and the fresh id. */
  lemma MapDeviceRenames(device: Record, ne_id: string)
    ensures var e := MapDevice(device, ne_id);
      e["ne_name"] == Prop(device, "device_name") && e["ne_make"] == Prop(device, "device_type") &&
      e["ne_ip"] == Prop(device, "ip") && e["ne_id"] == VStr(ne_id)
  {
    MapDeviceKeys(device, ne_id);
  }

  /** The fields copied under their own names (absent ones become `undefined`). */
  lemma MapDeviceCopies(device: Record, ne_id: string)
    ensures var e := MapDevice(device, ne_id);
      e["ne_type"] == Prop(device, "ne_type") && e["ssh_username"] == Prop(device, "ssh_username") &&
      e["ssh_password"] == Prop(device, "ssh_password") && e["gne"] == Prop(device, "gne")
  {
    MapDeviceKeys(device, ne_id);
  }

  /** The optional fields keep a truthy value and otherwise take their defaults. */
  lemma MapDeviceDefaults(device: Record, ne_id: string)
    ensures var e := MapDevice(device, ne_id);
      (Truthy(Prop(device, "ssh_secret")) ==> e["ssh_secret"] == device["ssh_secret"]) &&
      (!Truthy(Prop(device, "ssh_secret")) ==> e["ssh_secret"] == VStr("")) &&
      (Truthy(Prop(device, "session_log")) ==> e["session_log"] == device["session_log"]) &&
      (!Truthy(Prop(device, "session_log")) ==> e["session_log"] == VStr(""))
    ensures var e := MapDevice(device, ne_id);
      (Truthy(Prop(device, "verbose")) ==> e["verbose"] == device["verbose"]) &&
      (!Truthy(Prop(device, "verbose")) ==> e["verbose"] == VBool(false)) &&
      Truthy(e["global_delay_factor"]) &&
      (Truthy(Prop(device, "global_delay_factor")) ==> e["global_delay_factor"] == device["global_delay_factor"])
  {
    MapDeviceKeys(device, ne_id);
  }

  // -------------------------------------------------- updateNetworkWithDevice

  /** The first cached network whose name equals the given value, or -1. */
  function NamedNetwork(details: seq<NetworkDetail>, name: Value): (i: int)
    ensures -1 <= i < |details|
    ensures i == -1 <==> forall k :: 0 <= k < |details| ==> VStr(details[k].network_name) != name
    ensures 0 <= i ==> (VStr(details[i].network_name) == name &&
      forall k :: 0 <= k < i ==> VStr(details[k].network_name) != name)
  {
    FindIndex(details, (n: NetworkDetail) => VStr(n.network_name) == name)
  }

  /** The root-element key a partial element is stored under, when its `ne_name` is truthy. */
  function ElementKey(device: Record): Option<string> {
    if Truthy(Prop(device, "ne_name")) then Some(JsString(device["ne_name"])) else None
  }

  /** `{ ...elements[key], ...device }` stored under `key`: an absent element spreads as `{}`. */
  function MergeElement(elements: map<string, Record>, key: string, device: Record): map<string, Record> {
    elements[key := (if key in elements then elements[key] else map[]) + device]
  }

  /** A non-empty topology argument is appended to the network's lists; `None` stands for
      an absent or empty (`{}`) argument. */
  function AppendTopology(t: Topology, extra: Option<Topology>): Topology {
    match extra
    case None => t
    case Some(x) => Topology(t.nodes + x.nodes, t.edges + x.edges)
  }

  /** The network after a partial element and a topology are applied to it. */
  function DeviceApplied(n: NetworkDetail, device: Record, topology: Option<Topology>): NetworkDetail {
    var elements := match ElementKey(device)
      case None => n.elements
      case Some(k) => MergeElement(n.elements, k, device);
    n.(elements := elements, topology := AppendTopology(n.topology, topology))
  }

  /** `updateNetworkWithDevice`: nothing happens without a `network_name` or a cached network
      of that name; otherwise the updated network is upserted and its summary row is pushed
      with the number of root elements. */
  function UpdateNetworkWithDevice(s: CacheState, device: Record, topology: Option<Topology>): (r: CacheState)
    ensures !Truthy(Prop(device, "network_name")) ==> r == s
    ensures NamedNetwork(s.details, Prop(device, "network_name")) == -1 ==> r == s
    ensures |r.details| == |s.details|
    ensures forall k :: 0 <= k < |s.details| ==> r.details[k].network_id == s.details[k].network_id
  {
    if !Truthy(Prop(device, "network_name")) then s
    else
      var i := NamedNetwork(s.details, device["network_name"]);
      if i == -1 then s
      else
        var u := DeviceApplied(s.details[i], device, topology);
        CacheState(PushSummary(s.summary, SummaryOf(u.network_id, u.network_name, |u.elements|, u.site_count)),
                   PushDetail(s.details, u))
  }

  /** The network a found device names is replaced in place by the updated copy (when it is the
      first with its id), and every other network is unchanged. */
  lemma UpdateWithDeviceDetails(s: CacheState, device: Record, topology: Option<Topology>)
    requires Truthy(Prop(device, "network_name"))
    requires var i := NamedNetwork(s.details, device["network_name"]);
      i != -1 && FindDetail(s.details, s.details[i].network_id) == i
    ensures var i := NamedNetwork(s.details, device["network_name"]);
      UpdateNetworkWithDevice(s, device, topology).details == s.details[i := DeviceApplied(s.details[i], device, topology)]
  {
  }

  /** The summary row of the updated network carries its new root element count and its old
      site count. */
  lemma UpdateWithDeviceSummary(s: CacheState, device: Record, topology: Option<Topology>)
    requires Truthy(Prop(device, "network_name"))
    requires NamedNetwork(s.details, device["network_name"]) != -1
    ensures var n := s.details[NamedNetwork(s.details, device["network_name"])];
      var u := DeviceApplied(n, device, topology);
      var r := UpdateNetworkWithDevice(s, device, topology).summary.networks;
      var j := NetworksSlice.FirstWithId(r, n.network_id);
      0 <= j && r[j].network_name == n.network_name && r[j].ne_count == |u.elements| && r[j].site_count == n.site_count
  {
    var i := NamedNetwork(s.details, device["network_name"]);
    var u := DeviceApplied(s.details[i], device, topology);
    NetworksSlice.MergedRowFor(s.summary.networks, SummaryOf(u.network_id, u.network_name, |u.elements|, u.site_count));
  }

  /** Merging a partial element changes only the entry under its key: to the old fields
      overridden by the supplied ones, or to the supplied ones alone when there was none. */
  lemma MergeElementFields(elements: map<string, Record>, key: string, device: Record)
    ensures var m := MergeElement(elements, key, device);
      m.Keys == elements.Keys + {key} &&
      (forall f :: f in device ==> m[key][f] == device[f]) &&
      (key in elements ==> forall f :: f in elements[key] && f !in device ==> m[key][f] == elements[key][f]) &&
      (key !in elements ==> m[key] == device) &&
      (forall k :: k in elements && k != key ==> m[k] == elements[k])
  {
  }

  /** Applying the same partial element twice without a topology is applying it once. */
  lemma DeviceAppliedIdempotent(n: NetworkDetail, device: Record)
    ensures DeviceApplied(DeviceApplied(n, device, None), device, None) == DeviceApplied(n, device, None)
  {
    match ElementKey(device)
    case None =>
    case Some(k) =>
      var m := MergeElement(n.elements, k, device);
      assert m[k] + device == m[k];
      assert MergeElement(m, k, device) == m;
  }

  // ----------------------------------------------------------- addNetworkElement

  datatype AddReply = AddReply(code: int, status: string, message: string, device: Record, topology: Option<Topology>)
  datatype AddResult = AddResult(device: Record, topology: Option<Topology>, status: string, message: string)

  /** `addNetworkElement`: on a 201 "success" reply the mapped device is applied to the cache with
      the reply's topology; any other reply is rejected with its message. */
  function AddNetworkElement(s: CacheState, reply: Reply<AddReply>, newId: string): (r: Run<AddResult>)
    ensures r.outcome.Fulfilled? <==> reply.Ok? && reply.body.code == 201 && reply.body.status == "success"
    ensures r.outcome.Fulfilled? ==>
      r.outcome.value.device == MapDevice(reply.body.device, newId) &&
      r.state == UpdateNetworkWithDevice(s, MapDevice(reply.body.device, newId), reply.body.topology)
    ensures r.outcome.Rejected? ==> r.state == s && r.outcome.error.Message? && r.outcome.error.text != ""
  {
    match reply
    case Failure(m) => Run(Rejected(CaughtMessage(m)), s)
    case Ok(b) =>
      if b.code == 201 && b.status == "success" then
        var e := MapDevice(b.device, newId);
        Run(Fulfilled(AddResult(e, b.topology, b.status, b.message)), UpdateNetworkWithDevice(s, e, b.topology))
      else Run(Rejected(Message(OrDefault(b.message, "Failed to add network element"))), s)
  }

  /** An added device whose network is cached is stored under its `device_name` with the
      mapped fields. */
  lemma AddedDeviceStored(s: CacheState, reply: Reply<AddReply>, newId: string)
    requires reply.Ok? && reply.body.code == 201 && reply.body.status == "success"
    requires var d := reply.body.device; Truthy(Prop(d, "network_name")) && Truthy(Prop(d, "device_name"))
    requires var i := NamedNetwork(s.details, reply.body.device["network_name"]);
      i != -1 && FindDetail(s.details, s.details[i].network_id) == i
    ensures var i := NamedNetwork(s.details, reply.body.device["network_name"]);
      var key := JsString(reply.body.device["device_name"]);
      var r := AddNetworkElement(s, reply, newId);
      |r.state.details| == |s.details| && key in r.state.details[i].elements &&
      forall f :: f in ElementKeys ==> Prop(r.state.details[i].elements[key], f) == Prop(MapDevice(reply.body.device, newId), f)
  {
    var e := MapDevice(reply.body.device, newId);
    var i := NamedNetwork(s.details, reply.body.device["network_name"]);
    var key := JsString(reply.body.device["device_name"]);
    MapDeviceKeys(reply.body.device, newId);
    MapDeviceRenames(reply.body.device, newId);
    assert ElementKey(e) == Some(key);
    UpdateWithDeviceDetails(s, e, reply.body.topology);
    MergeElementFields(s.details[i].elements, key, e);
  }

  // --------------------------------------------------------------- setElementSNMP

  datatype SnmpReply = SnmpReply(device_snmp: Record, status: string, message: string)

  /** The existing element with the reply's SNMP protocols, passwords and status written over it. */
  function SnmpSettings(existing: Record, d: Record): Record {
    existing["snmp_auth_protocol" := Prop(d, "snmp_auth_protocol")]
            ["snmp_auth_password" := Prop(d, "snmp_auth_password")]
            ["snmp_priv_protocol" := Prop(d, "snmp_priv_protocol")]
            ["snmp_priv_password" := Prop(d, "snmp_priv_password")]
            ["status" := Prop(d, "status")]
  }

  /** The element `setElementSNMP` dispatches: the settings and the SNMP user name. */
  function SnmpFields(existing: Record, d: Record): Record {
    SnmpSettings(existing, d)["snmp_username" := Prop(d, "snmp_username")]
  }

  /** The checks of `setElementSNMP` before its dispatch: the reply's status, the network named
      by `device_snmp.network_name` and its element named by `device_snmp.device_name`. */
  function SnmpTarget(s: CacheState, reply: Reply<SnmpReply>): (r: Outcome<(int, Record)>)
    ensures reply.Failure? ==> r == Rejected(CaughtMessage(reply.message))
    ensures reply.Ok? && reply.body.status != "success" ==>
      r == Rejected(Message(OrDefault(reply.body.message, "SNMP setup failed")))
    ensures reply.Ok? && reply.body.status == "success" ==>
      var i := NamedNetwork(s.details, Prop(reply.body.device_snmp, "network_name"));
      (i == -1 ==> r == Rejected(Message("Network not found"))) &&
      (i != -1 && JsString(Prop(reply.body.device_snmp, "device_name")) !in s.details[i].elements ==>
        r == Rejected(Message("Device not found")))
    ensures r.Fulfilled? ==> reply.Ok? && reply.body.status == "success"
    ensures r.Fulfilled? ==> var (i, e) := r.value;
      var d := reply.body.device_snmp;
      i == NamedNetwork(s.details, Prop(d, "network_name")) && 0 <= i < |s.details| &&
      JsString(Prop(d, "device_name")) in s.details[i].elements &&
      e == SnmpFields(s.details[i].elements[JsString(Prop(d, "device_name"))], d)
  {
    match reply
    case Failure(m) => Rejected(CaughtMessage(m))
    case Ok(b) =>
      if b.status != "success" then Rejected(Message(OrDefault(b.message, "SNMP setup failed")))
      else
        var i := NamedNetwork(s.details, Prop(b.device_snmp, "network_name"));
        if i == -1 then Rejected(Message("Network not found"))
        else
          var key := JsString(Prop(b.device_snmp, "device_name"));
          if key !in s.details[i].elements then Rejected(Message("Device not found"))
          else Fulfilled((i, SnmpFields(s.details[i].elements[key], b.device_snmp)))
  }

  /** `setElementSNMP` as written: the updated element is dispatched together with the
      network's own topology, which is therefore appended to itself. */
  function SetElementSNMPAsWritten(s: CacheState, reply: Reply<SnmpReply>): Run<SnmpReply> {
    match SnmpTarget(s, reply)
    case Rejected(e) => Run(Rejected(e), s)
    case Fulfilled((i, e)) => Run(Fulfilled(reply.body), UpdateNetworkWithDevice(s, e, Some(s.details[i].topology)))
  }

  /** `setElementSNMP` as its comment intends: the element is updated without touching the topology. */
  function SetElementSNMP(s: CacheState, reply: Reply<SnmpReply>): (r: Run<SnmpReply>)
    ensures r.outcome.Fulfilled? <==> SnmpTarget(s, reply).Fulfilled?
    ensures r.outcome.Fulfilled? ==> reply.Ok? && r.outcome.value == reply.body && reply.body.status == "success"
    ensures r.outcome.Rejected? ==> r.state == s && r.outcome.error == SnmpTarget(s, reply).error
  {
    match SnmpTarget(s, reply)
    case Rejected(e) => Run(Rejected(e), s)
    case Fulfilled((_, e)) => Run(Fulfilled(reply.body), UpdateNetworkWithDevice(s, e, None))
  }

  /** A rejected SNMP update leaves the cache alone, whether or not the topology is passed on. */
  lemma SetElementSNMPRejected(s: CacheState, reply: Reply<SnmpReply>)
    requires SnmpTarget(s, reply).Rejected?
    ensures SetElementSNMP(s, reply) == Run(Rejected(SnmpTarget(s, reply).error), s)
    ensures SetElementSNMPAsWritten(s, reply) == SetElementSNMP(s, reply)
  {
  }

  /** The dispatched element names the network the reply named, and that network is the first
      with its id: the update is then applied to it. */
  predicate SnmpSelfNamed(s: CacheState, i: int, e: Record) {
    0 <= i < |s.details| && Truthy(Prop(e, "network_name")) &&
    NamedNetwork(s.details, e["network_name"]) == i &&
    FindDetail(s.details, s.details[i].network_id) == i
  }

  /** As written, a successful SNMP update doubles the network's topology lists. */
  lemma SnmpDoublesTopology(s: CacheState, reply: Reply<SnmpReply>, i: int, e: Record)
    requires SnmpTarget(s, reply) == Fulfilled((i, e)) && SnmpSelfNamed(s, i, e)
    ensures var t := s.details[i].topology;
      SetElementSNMPAsWritten(s, reply).state.details[i].topology == Topology(t.nodes + t.nodes, t.edges + t.edges)
  {
    UpdateWithDeviceDetails(s, e, Some(s.details[i].topology));
  }

  /** Corrected, the SNMP update replaces the network in place by a copy with the merged element
      and the same topology. */
  lemma SnmpKeepsTopology(s: CacheState, reply: Reply<SnmpReply>, i: int, e: Record)
    requires SnmpTarget(s, reply) == Fulfilled((i, e)) && SnmpSelfNamed(s, i, e)
    ensures SetElementSNMP(s, reply).state.details == s.details[i := DeviceApplied(s.details[i], e, None)]
    ensures DeviceApplied(s.details[i], e, None).topology == s.details[i].topology
  {
    UpdateWithDeviceDetails(s, e, None);
  }

  const SnmpKeys: set<string> := {"snmp_username", "snmp_auth_protocol", "snmp_auth_password",
    "snmp_priv_protocol", "snmp_priv_password", "status"}

  /** The dispatched element carries the reply's six SNMP fields and keeps every other field. */
  lemma SnmpFieldsSet(existing: Record, d: Record)
    ensures var r := SnmpFields(existing, d);
      r.Keys == existing.Keys + SnmpKeys &&
      (forall f :: f in SnmpKeys ==> r[f] == Prop(d, f)) &&
      (forall f :: f in existing && f !in SnmpKeys ==> r[f] == existing[f])
  {
  }

  // ------------------------------------------------------------- NeighborDiscover

  datatype DiscoverReply = DiscoverReply(code: int, status: string, message: string,
                                         topology: Option<Topology>, devices: seq<(string, Record)>)
  datatype DiscoverResult = DiscoverResult(topology: Option<Topology>, devices: seq<(string, Record)>,
                                           status: string, message: string)

  /** The discovered devices applied one after another, the `k`-th with the fresh id `ids(from + k)`,
      each with the whole reply topology. */
  function DiscoverDevices(s: CacheState, devices: seq<(string, Record)>, topology: Option<Topology>,
                           ids: nat -> string, from: nat): (r: CacheState)
    ensures |r.details| == |s.details|
    decreases |devices|
  {
    if |devices| == 0 then s
    else DiscoverDevices(UpdateNetworkWithDevice(s, MapDevice(devices[0].1, ids(from)), topology),
                         devices[1..], topology, ids, from + 1)
  }

  /** `NeighborDiscover` without its loop: the outcome and the cache after all devices. */
  function NeighborDiscoverSpec(s: CacheState, reply: Reply<DiscoverReply>, ids: nat -> string): (r: Run<DiscoverResult>)
    ensures r.outcome.Fulfilled? <==> reply.Ok? && reply.body.code == 200 && reply.body.status == "success"
    ensures r.outcome.Rejected? ==> r.state == s
  {
    match reply
    case Failure(m) => Run(Rejected(CaughtMessage(m)), s)
    case Ok(b) =>
      if b.code == 200 && b.status == "success" then
        Run(Fulfilled(DiscoverResult(b.topology, b.devices, b.status, b.message)),
            DiscoverDevices(s, b.devices, b.topology, ids, 0))
      else Run(Rejected(Message(OrDefault(b.message, "Failed to discover neighbors"))), s)
  }

  /** `NeighborDiscover`: the loop dispatching one update per discovered device. */
  method NeighborDiscover(s: CacheState, reply: Reply<DiscoverReply>, ids: nat -> string) returns (r: Run<DiscoverResult>)
    ensures r == NeighborDiscoverSpec(s, reply, ids)
  {
    match reply
    case Failure(m) =>
      r := Run(Rejected(CaughtMessage(m)), s);
    case Ok(b) =>
      if b.code == 200 && b.status == "success" {
        var st := s;
        var k := 0;
        while k < |b.devices|
          invariant 0 <= k <= |b.devices|
          invariant DiscoverDevices(st, b.devices[k..], b.topology, ids, k) == DiscoverDevices(s, b.devices, b.topology, ids, 0)
        {
          assert b.devices[k..][1..] == b.devices[k + 1..];
          st := UpdateNetworkWithDevice(st, MapDevice(b.devices[k].1, ids(k)), b.topology);
          k := k + 1;
        }
        r := Run(Fulfilled(DiscoverResult(b.topology, b.devices, b.status, b.message)), st);
      } else {
        r := Run(Rejected(Message(OrDefault(b.message, "Failed to discover neighbors"))), s);
      }
  }

  /** `n` copies of a list, one after another. */
  function Repeat<T>(xs: seq<T>, n: nat): seq<T> {
    if n == 0 then [] else xs + Repeat(xs, n - 1)
  }

  lemma RepeatStep<T>(a: seq<T>, xs: seq<T>, n: nat)
    requires n > 0
    ensures (a + xs) + Repeat(xs, n - 1) == a + Repeat(xs, n)
  {
    assert Repeat(xs, n) == xs + Repeat(xs, n - 1);
  }

  /** One discovered device of a cached network replaces that network by a copy with the reply
      topology appended, and leaves the others alone. */
  lemma DiscoverStep(s: CacheState, device: Record, t: Topology, id: string, i: int)
    requires 0 <= i < |s.details| && FindDetail(s.details, s.details[i].network_id) == i
    requires s.details[i].network_name != "" && Prop(device, "network_name") == VStr(s.details[i].network_name)
    requires forall k :: 0 <= k < i ==> s.details[k].network_name != s.details[i].network_name
    ensures var r := UpdateNetworkWithDevice(s, MapDevice(device, id), Some(t)).details;
      |r| == |s.details| && r[i].network_id == s.details[i].network_id &&
      r[i].network_name == s.details[i].network_name &&
      r[i].topology == AppendTopology(s.details[i].topology, Some(t)) &&
      forall k :: 0 <= k < |s.details| && k != i ==> r[k] == s.details[k]
    ensures var r := UpdateNetworkWithDevice(s, MapDevice(device, id), Some(t)).details;
      FindDetail(r, r[i].network_id) == i
  {
    var e := MapDevice(device, id);
    assert NamedNetwork(s.details, e["network_name"]) == i;
    UpdateWithDeviceDetails(s, e, Some(t));
  }

  /** The devices of a discovery all name the cached network at `i`, which is the first with
      its id and the first with its (non-empty) name. */
  predicate Tracks(s: CacheState, devices: seq<(string, Record)>, i: int) {
    && 0 <= i < |s.details|
    && FindDetail(s.details, s.details[i].network_id) == i
    && s.details[i].network_name != ""
    && (forall k :: 0 <= k < i ==> s.details[k].network_name != s.details[i].network_name)
    && (forall k :: 0 <= k < |devices| ==> Prop(devices[k].1, "network_name") == VStr(s.details[i].network_name))
  }

  /** The cache after the first device of a discovery, from which the remaining devices go on. */
  lemma DiscoverFirst(s: CacheState, devices: seq<(string, Record)>, t: Topology, ids: nat -> string, from: nat, i: int)
    returns (s1: CacheState)
    requires Tracks(s, devices, i) && |devices| > 0
    ensures Tracks(s1, devices[1..], i)
    ensures DiscoverDevices(s, devices, Some(t), ids, from) == DiscoverDevices(s1, devices[1..], Some(t), ids, from + 1)
    ensures s1.details[i].topology == AppendTopology(s.details[i].topology, Some(t))
    ensures |s1.details| == |s.details| && forall k :: 0 <= k < |s.details| && k != i ==> s1.details[k] == s.details[k]
  {
    DiscoverStep(s, devices[0].1, t, ids(from), i);
    s1 := UpdateNetworkWithDevice(s, MapDevice(devices[0].1, ids(from)), Some(t));
    assert forall k :: 0 <= k < |devices[1..]| ==> devices[1..][k] == devices[k + 1];
  }

  /** Every device of one cached network appends the whole reply topology again: after
      `n` devices the network's lists end with `n` copies of the reply's lists. */
  lemma {:induction false} DiscoverRepeatsTopology(s: CacheState, devices: seq<(string, Record)>, t: Topology,
                                                   ids: nat -> string, from: nat, i: int)
    requires Tracks(s, devices, i)
    ensures DiscoverDevices(s, devices, Some(t), ids, from).details[i].topology ==
      Topology(s.details[i].topology.nodes + Repeat(t.nodes, |devices|), s.details[i].topology.edges + Repeat(t.edges, |devices|))
    decreases |devices|
  {
    var n0 := s.details[i].topology.nodes;
    var e0 := s.details[i].topology.edges;
    if |devices| == 0 {
      assert n0 + [] == n0;
      assert e0 + [] == e0;
    } else {
      var s1 := DiscoverFirst(s, devices, t, ids, from, i);
      var n := |devices|;
      assert |devices[1..]| == n - 1;
      DiscoverRepeatsTopology(s1, devices[1..], t, ids, from + 1, i);
      var r := DiscoverDevices(s1, devices[1..], Some(t), ids, from + 1).details[i].topology;
      assert r.nodes == (n0 + t.nodes) + Repeat(t.nodes, n - 1);
      assert r.edges == (e0 + t.edges) + Repeat(t.edges, n - 1);
      RepeatStep(n0, t.nodes, n);
      RepeatStep(e0, t.edges, n);
    }
  }

  /** Discovering devices of one cached network changes no other cached network. */
  lemma {:induction false} DiscoverKeepsOthers(s: CacheState, devices: seq<(string, Record)>, t: Topology,
                                               ids: nat -> string, from: nat, i: int)
    requires Tracks(s, devices, i)
    ensures forall k :: 0 <= k < |s.details| && k != i ==> DiscoverDevices(s, devices, Some(t), ids, from).details[k] == s.details[k]
    decreases |devices|
  {
    if |devices| > 0 {
      var s1 := DiscoverFirst(s, devices, t, ids, from, i);
      DiscoverKeepsOthers(s1, devices[1..], t, ids, from + 1, i);
    }
  }

  // --------------------------------------------------------- fetchCurrentConfig

  datatype ConfigReply = ConfigReply(status: string, message: string, output: Value, ne_type: Value)
  datatype ConfigResult = ConfigResult(output: Value, status: string, message: string, ne_type: Value)

  /** The partial element `fetchCurrentConfig` dispatches: only name, type and network. */
  function TypePatch(networkName: string, deviceName: string, ne_type: Value): Record {
    map["ne_name" := VStr(deviceName), "ne_type" := ne_type, "network_name" := VStr(networkName)]
  }

  /** `fetchCurrentConfig`: on "success" the element's `ne_type` is updated (with an empty topology). */
  function FetchCurrentConfig(s: CacheState, networkName: string, deviceName: string, reply: Reply<ConfigReply>): (r: Run<ConfigResult>)
    ensures r.outcome.Fulfilled? <==> reply.Ok? && reply.body.status == "success"
    ensures r.outcome.Fulfilled? ==>
      r.outcome.value.output == reply.body.output && r.outcome.value.ne_type == reply.body.ne_type
    ensures r.outcome.Rejected? ==> r.state == s
  {
    match reply
    case Failure(m) => Run(Rejected(CaughtMessage(m)), s)
    case Ok(b) =>
      if b.status == "success" then
        Run(Fulfilled(ConfigResult(b.output, b.status, b.message, b.ne_type)),
            UpdateNetworkWithDevice(s, TypePatch(networkName, deviceName, b.ne_type), None))
      else Run(Rejected(Message(OrDefault(b.message, "Failed to fetch current configuration"))), s)
  }

  /** A fetched configuration replaces the named network in place by a copy whose element of that
      name is merged with the patch; the topology is left alone. */
  lemma FetchConfigUpdates(s: CacheState, networkName: string, deviceName: string, b: ConfigReply)
    requires b.status == "success" && networkName != "" && deviceName != ""
    requires var i := NamedNetwork(s.details, VStr(networkName));
      i != -1 && FindDetail(s.details, s.details[i].network_id) == i
    ensures var i := NamedNetwork(s.details, VStr(networkName)); var n := s.details[i];
      FetchCurrentConfig(s, networkName, deviceName, Ok(b)).state.details ==
        s.details[i := n.(elements := MergeElement(n.elements, deviceName, TypePatch(networkName, deviceName, b.ne_type)))]
  {
    var p := TypePatch(networkName, deviceName, b.ne_type);
    assert ElementKey(p) == Some(deviceName);
    UpdateWithDeviceDetails(s, p, None);
  }

  /** The patch sets the element's `ne_type` (inserting the element when absent) and keeps its
      other fields and all other elements. */
  lemma TypePatchMerge(elements: map<string, Record>, networkName: string, deviceName: string, t: Value)
    ensures var m := MergeElement(elements, deviceName, TypePatch(networkName, deviceName, t));
      deviceName in m && Prop(m[deviceName], "ne_type") == t &&
      (deviceName in elements ==> forall f :: f in elements[deviceName] && f !in {"ne_name", "ne_type", "network_name"} ==>
        Prop(m[deviceName], f) == elements[deviceName][f]) &&
      (forall k :: k in elements && k != deviceName ==> m[k] == elements[k])
  {
    var p := TypePatch(networkName, deviceName, t);
    MergeElementFields(elements, deviceName, p);
  }

  // ------------------------------------------------------------- handleCliCommand

  datatype CliReply = CliReply(status: string, message: string, output: Value)
  datatype CliResult = CliResult(output: Value, status: string, message: string)

  /** `handleCliCommand`: the reply's output on "success", its message otherwise. */
  function HandleCliCommand(reply: Reply<CliReply>): (r: Outcome<CliResult>)
    ensures r.Fulfilled? <==> reply.Ok? && reply.body.status == "success"
    ensures r.Fulfilled? ==> r.value.output == reply.body.output
    ensures r.Rejected? ==> r.error.Message? && r.error.text != ""
  {
    match reply
    case Failure(m) => Rejected(CaughtMessage(m))
    case Ok(b) =>
      if b.status == "success" then Fulfilled(CliResult(b.output, b.status, b.message))
      else Rejected(Message(OrDefault(b.message, "Failed to execute command")))
  }

  // ------------------------------------------------------------------- reducers

  /** `action.payload || fallback` in a `rejected` reducer. */
  function RejectedText(e: Rejection, fallback: string): string {
    match e
    case Message(t) => OrDefault(t, fallback)
    case _ => fallback
  }

  /** The discovered devices stored by `NeighborDiscover.fulfilled`, each with a fresh `ne_id`,
      under the string form of its `ne_name`. */
  function StoreDiscovered(elements: map<string, Record>, devices: seq<(string, Record)>, ids: nat -> string, from: nat): map<string, Record>
    decreases |devices|
  {
    if |devices| == 0 then elements
    else
      var d := devices[0].1["ne_id" := VStr(ids(from))];
      StoreDiscovered(elements[JsString(Prop(d, "ne_name")) := d], devices[1..], ids, from + 1)
  }

  /** Backend device records carry `device_name`, not `ne_name`: discovered records without an
      `ne_name` all land under the key "undefined", the last one winning. */
  lemma {:induction false} StoreDiscoveredUndefined(elements: map<string, Record>, devices: seq<(string, Record)>,
                                                    ids: nat -> string, from: nat)
    requires |devices| > 0 && forall k :: 0 <= k < |devices| ==> "ne_name" !in devices[k].1
    ensures StoreDiscovered(elements, devices, ids, from) ==
      elements["undefined" := devices[|devices| - 1].1["ne_id" := VStr(ids(from + |devices| - 1))]]
    decreases |devices|
  {
    var d := devices[0].1["ne_id" := VStr(ids(from))];
    assert Prop(d, "ne_name") == VUndefined;
    if |devices| > 1 {
      assert forall k :: 0 <= k < |devices[1..]| ==> devices[1..][k] == devices[k + 1];
      StoreDiscoveredUndefined(elements["undefined" := d], devices[1..], ids, from + 1);
    }
  }

  /** The slice state and its extra reducers. Its own `networkDetails` starts empty and only
      entries already present are ever changed. */
  class ElementStore {
    var loading: bool
    var error: Option<string>
    var networkDetails: seq<NetworkDetail>
    var configOutput: Value
    var cliOutput: string
    var status: string

    constructor ()
      ensures !loading && error == None && networkDetails == [] && configOutput == VStr("") && cliOutput == "" && status == ""
    {
      loading := false;
      error := None;
      networkDetails := [];
      configOutput := VStr("");
      cliOutput := "";
      status := "";
    }

    /** The `pending` reducers of `addNetworkElement` (not clearing `error`) and of the others. */
    method Pending(clearError: bool)
      modifies this
      ensures loading && error == (if clearError then None else old(error))
      ensures networkDetails == old(networkDetails) && configOutput == old(configOutput)
      ensures cliOutput == old(cliOutput) && status == old(status)
    {
      loading := true;
      if clearError {
        error := None;
      }
    }

    /** The `rejected` reducers other than `fetchCurrentConfig`'s. */
    method Rejected(e: Rejection, fallback: string)
      modifies this
      ensures !loading && error == Some(RejectedText(e, fallback))
      ensures networkDetails == old(networkDetails) && configOutput == old(configOutput)
      ensures cliOutput == old(cliOutput) && status == old(status)
    {
      loading := false;
      error := Some(RejectedText(e, fallback));
    }

    /** `addNetworkElement.fulfilled`: the device is stored under its `ne_name` in the network
        of its `network_name`, when this slice holds one. */
    method AddNetworkElementFulfilled(p: AddResult)
      modifies this
      ensures old(networkDetails) == [] ==> networkDetails == []
      ensures var i := NamedNetwork(old(networkDetails), Prop(p.device, "network_name"));
        networkDetails == (if p.status == "success" && i != -1
          then old(networkDetails)[i := old(networkDetails)[i].(elements := old(networkDetails)[i].elements[JsString(Prop(p.device, "ne_name")) := p.device])]
          else old(networkDetails))
      ensures !loading && error == (if p.status == "success" then None else Some(OrDefault(p.message, "Failed to add network element")))
      ensures configOutput == old(configOutput) && cliOutput == old(cliOutput) && status == old(status)
    {
      if p.status == "success" {
        var i := NamedNetwork(networkDetails, Prop(p.device, "network_name"));
        if i != -1 {
          var n := networkDetails[i];
          networkDetails := networkDetails[i := n.(elements := n.elements[JsString(Prop(p.device, "ne_name")) := p.device])];
        }
        error := None;
      } else {
        error := Some(OrDefault(p.message, "Failed to add network element"));
      }
      loading := false;
    }

    /** `setElementSNMP.fulfilled`: the element is rebuilt from the network's `devices` entry of
        the same name (without `snmp_username`), when both exist. */
    method SetElementSNMPFulfilled(p: SnmpReply)
      modifies this
      ensures old(networkDetails) == [] ==> networkDetails == []
      ensures var d := p.device_snmp; var i := NamedNetwork(old(networkDetails), Prop(d, "network_name"));
        var key := JsString(Prop(d, "ne_name"));
        networkDetails == (if p.status == "success" && i != -1 && key in old(networkDetails)[i].devices
          then old(networkDetails)[i := old(networkDetails)[i].(elements := old(networkDetails)[i].elements[key :=
            SnmpSettings(old(networkDetails)[i].devices[key], d)])]
          else old(networkDetails))
      ensures !loading && error == (if p.status == "success" then None else Some(OrDefault(p.message, "Failed to set SNMP")))
      ensures configOutput == old(configOutput) && cliOutput == old(cliOutput) && status == old(status)
    {
      if p.status == "success" {
        var d := p.device_snmp;
        var i := NamedNetwork(networkDetails, Prop(d, "network_name"));
        if i != -1 {
          var n := networkDetails[i];
          var key := JsString(Prop(d, "ne_name"));
          if key in n.devices {
            var updated := SnmpSettings(n.devices[key], d);
            networkDetails := networkDetails[i := n.(elements := n.elements[key := updated])];
          }
        }
        error := None;
      } else {
        error := Some(OrDefault(p.message, "Failed to set SNMP"));
      }
      loading := false;
    }

    /** `NeighborDiscover.fulfilled`: the devices are stored, each with a fresh id, and the reply's
        topology is appended once. The reducer throws, which leaves the state as it was, when the
        `findIndex` callback reads the first device of an empty device list (only when there is a
        network to compare), or when a network matched and the reply has no topology. */
    method NeighborDiscoverFulfilled(p: DiscoverResult, ids: nat -> string)
      modifies this
      ensures old(networkDetails) == [] ==> networkDetails == []
      ensures p.status == "success" && |p.devices| == 0 && |old(networkDetails)| > 0 ==>
        networkDetails == old(networkDetails) && loading == old(loading) && error == old(error)
      ensures p.status == "success" && |p.devices| == 0 && old(networkDetails) == [] ==>
        networkDetails == old(networkDetails) && !loading && error == old(error)
      ensures (p.status == "success" && |p.devices| > 0 && p.topology.None? &&
               NamedNetwork(old(networkDetails), Prop(p.devices[0].1, "network_name")) != -1) ==>
        networkDetails == old(networkDetails) && loading == old(loading) && error == old(error)
      ensures (p.status == "success" && |p.devices| > 0 &&
               NamedNetwork(old(networkDetails), Prop(p.devices[0].1, "network_name")) == -1) ==>
        networkDetails == old(networkDetails) && !loading && error == old(error)
      ensures p.status == "success" && |p.devices| > 0 && p.topology.Some? ==>
        var i := NamedNetwork(old(networkDetails), Prop(p.devices[0].1, "network_name"));
        !loading && error == old(error) &&
        networkDetails == (if i == -1 then old(networkDetails)
          else old(networkDetails)[i := old(networkDetails)[i].(
            elements := StoreDiscovered(old(networkDetails)[i].elements, p.devices, ids, 0),
            topology := AppendTopology(old(networkDetails)[i].topology, p.topology))])
      ensures p.status != "success" ==>
        networkDetails == old(networkDetails) && !loading && error == Some(OrDefault(p.message, "Failed to discover neighbors"))
      ensures configOutput == old(configOutput) && cliOutput == old(cliOutput) && status == old(status)
    {
      if p.status == "success" {
        if |p.devices| == 0 {
          if |networkDetails| > 0 {
            return;
          }
        } else {
          var i := NamedNetwork(networkDetails, Prop(p.devices[0].1, "network_name"));
          if i != -1 {
            if p.topology.None? {
              return;
            }
            var n := networkDetails[i];
            var elements := n.elements;
            var k := 0;
            while k < |p.devices|
              invariant 0 <= k <= |p.devices|
              invariant StoreDiscovered(elements, p.devices[k..], ids, k) == StoreDiscovered(n.elements, p.devices, ids, 0)
            {
              assert p.devices[k..][1..] == p.devices[k + 1..];
              var d := p.devices[k].1["ne_id" := VStr(ids(k))];
              elements := elements[JsString(Prop(d, "ne_name")) := d];
              k := k + 1;
            }
            networkDetails := networkDetails[i := n.(elements := elements, topology := AppendTopology(n.topology, p.topology))];
          }
        }
      } else {
        error := Some(OrDefault(p.message, "Failed to discover neighbors"));
      }
      loading := false;
    }

    /** `fetchCurrentConfig.pending` / `.fulfilled` / `.rejected`: `status` follows the request. */
    method FetchConfigPending()
      modifies this
      ensures loading && status == "loading" && error == old(error) && configOutput == old(configOutput)
      ensures networkDetails == old(networkDetails) && cliOutput == old(cliOutput)
    {
      loading := true;
      status := "loading";
    }

    method FetchConfigFulfilled(p: ConfigResult)
      modifies this
      ensures !loading && status == "success" && configOutput == p.output && error == old(error)
      ensures networkDetails == old(networkDetails) && cliOutput == old(cliOutput)
    {
      loading := false;
      configOutput := p.output;
      status := "success";
    }

    method FetchConfigRejected(e: Rejection)
      modifies this
      ensures !loading && status == "failed" && error == Some(RejectedText(e, "Failed to fetch current configuration"))
      ensures networkDetails == old(networkDetails) && cliOutput == old(cliOutput) && configOutput == old(configOutput)
    {
      loading := false;
      error := Some(RejectedText(e, "Failed to fetch current configuration"));
      status := "failed";
    }

    /** `handleCliCommand.fulfilled`: the command and its output are appended to the transcript. */
    method HandleCliCommandFulfilled(command: string, p: CliResult)
      modifies this
      ensures !loading && cliOutput == old(cliOutput) + "\n" + command + "\n" + JsString(p.output)
      ensures error == old(error) && status == old(status)
      ensures networkDetails == old(networkDetails) && configOutput == old(configOutput)
    {
      loading := false;
      cliOutput := cliOutput + "\n" + command + "\n" + JsString(p.output);
    }

    /** Dispatching `addNetworkElement` against the summary, the details and this slice. */
    method DispatchAddNetworkElement(networks: NetworksSlice.NetworksStore, network: NetworkStore,
                                     reply: Reply<AddReply>, newId: string)
      modifies this, networks, network
      ensures var r := AddNetworkElement(CacheState(old(networks.data), old(network.networkDetails)), reply, newId);
        networks.data == r.state.summary && network.networkDetails == r.state.details &&
        !loading && error == (if r.outcome.Fulfilled? then None else Some(RejectedText(r.outcome.error, "Failed to add network element")))
      ensures old(networkDetails) == [] ==> networkDetails == []
      ensures networks.loading == old(networks.loading) && network.loading == old(network.loading)
    {
      Pending(false);
      var r := AddNetworkElement(CacheState(networks.data, network.networkDetails), reply, newId);
      networks.data := r.state.summary;
      network.networkDetails := r.state.details;
      match r.outcome
      case Fulfilled(p) => AddNetworkElementFulfilled(p);
      case Rejected(e) => Rejected(e, "Failed to add network element");
    }

    /** Dispatching `setElementSNMP`. */
    method DispatchSetElementSNMP(networks: NetworksSlice.NetworksStore, network: NetworkStore, reply: Reply<SnmpReply>)
      modifies this, networks, network
      ensures var r := SetElementSNMP(CacheState(old(networks.data), old(network.networkDetails)), reply);
        networks.data == r.state.summary && network.networkDetails == r.state.details
      ensures var r := SetElementSNMP(CacheState(old(networks.data), old(network.networkDetails)), reply);
        !loading && error == (if r.outcome.Fulfilled? then None else Some(RejectedText(r.outcome.error, "SNMP setup request failed")))
      ensures old(networkDetails) == [] ==> networkDetails == []
      ensures networks.loading == old(networks.loading) && network.loading == old(network.loading)
    {
      var r := SetElementSNMP(CacheState(networks.data, network.networkDetails), reply);
      Pending(true);
      networks.data := r.state.summary;
      network.networkDetails := r.state.details;
      match r.outcome
      case Fulfilled(p) =>
        assert p.status == "success";
        SetElementSNMPFulfilled(p);
      case Rejected(e) => Rejected(e, "SNMP setup request failed");
    }

    /** Dispatching `NeighborDiscover`. */
    method DispatchNeighborDiscover(networks: NetworksSlice.NetworksStore, network: NetworkStore,
                                    reply: Reply<DiscoverReply>, ids: nat -> string, reducerIds: nat -> string)
      modifies this, networks, network
      ensures var r := NeighborDiscoverSpec(CacheState(old(networks.data), old(network.networkDetails)), reply, ids);
        networks.data == r.state.summary && network.networkDetails == r.state.details
      ensures old(networkDetails) == [] ==> networkDetails == []
      ensures networks.loading == old(networks.loading) && network.loading == old(network.loading)
    {
      Pending(true);
      var r := NeighborDiscover(CacheState(networks.data, network.networkDetails), reply, ids);
      networks.data := r.state.summary;
      network.networkDetails := r.state.details;
      match r.outcome
      case Fulfilled(p) => NeighborDiscoverFulfilled(p, reducerIds);
      case Rejected(e) => Rejected(e, "Failed to discover neighbors");
    }

    /** Dispatching `fetchCurrentConfig`. */
    method DispatchFetchCurrentConfig(networks: NetworksSlice.NetworksStore, network: NetworkStore,
                                      networkName: string, deviceName: string, reply: Reply<ConfigReply>)
      modifies this, networks, network
      ensures var r := FetchCurrentConfig(CacheState(old(networks.data), old(network.networkDetails)), networkName, deviceName, reply);
        networks.data == r.state.summary && network.networkDetails == r.state.details && !loading &&
        status == (if r.outcome.Fulfilled? then "success" else "failed") &&
        (r.outcome.Fulfilled? ==> configOutput == reply.body.output)
      ensures networkDetails == old(networkDetails) && cliOutput == old(cliOutput)
    {
      FetchConfigPending();
      var r := FetchCurrentConfig(CacheState(networks.data, network.networkDetails), networkName, deviceName, reply);
      networks.data := r.state.summary;
      network.networkDetails := r.state.details;
      match r.outcome
      case Fulfilled(p) => FetchConfigFulfilled(p);
      case Rejected(e) => FetchConfigRejected(e);
    }

    /** Dispatching `handleCliCommand`: only this slice changes. */
    method DispatchHandleCliCommand(command: string, reply: Reply<CliReply>)
      modifies this
      ensures reply.Ok? && reply.body.status == "success" ==>
        cliOutput == old(cliOutput) + "\n" + command + "\n" + JsString(reply.body.output) && !loading && error == None
      ensures !(reply.Ok? && reply.body.status == "success") ==>
        cliOutput == old(cliOutput) && !loading && error == Some(RejectedText(HandleCliCommand(reply).error, "Failed to execute command"))
      ensures networkDetails == old(networkDetails) && configOutput == old(configOutput) && status == old(status)
    {
      Pending(true);
      match HandleCliCommand(reply)
      case Fulfilled(p) => HandleCliCommandFulfilled(command, p);
      case Rejected(e) => Rejected(e, "Failed to execute command");
    }
  }
}
